/** The route handlers of app.py as pure transitions from (state, request)
    to (next state, response). The state is the database together with the
    one session value the handlers read, `session["user_id"]`. Pages,
    redirect targets and flash messages are tags; templates are not modelled. */
module App {
  import opened Wrappers
  import opened Forms
  import opened Models
  import opened Flashes

  /** The database and the browser session's `user_id`. */
  datatype State = State(db: Db, session: Option<Username>)

  /** A fresh database and a browser without a session. */
  const Init: State := State(Empty, None)

  datatype Method = Get | Post

  /** The templates the handlers render. */
  datatype Page =
    | RegisterPage
    | LoginPage
    | UserDetails(username: Username)
    | AddFeedbackPage(username: Username)
    | EditFeedbackPage(id: nat)

  /** Redirect targets. `UserObj(u)` is `/users/{user}` where a `User` object
      rather than its username is interpolated: it is a different URL from
      `UserPage(u)`, whatever the object renders as. */
  datatype Target =
    | Home
    | RegisterUrl
    | UserPage(username: Username)
    | UserObj(owner: Username)
    | AddFeedbackUrl(username: Username)

  /** `NotFound` is the abort of `get_or_404`; `Crash` an unhandled exception. */
  datatype Response =
    | Render(flash: Option<Message>, page: Page)
    | Redirect(flash: Option<Message>, target: Target)
    | NotFound
    | MethodNotAllowed
    | Crash

  datatype Outcome = Outcome(next: State, response: Response)

  /** The library collaborators: the password hasher and WTForms' `Email()`. */
  datatype Env = Env(hasher: Hasher, emailFormat: string -> bool)

  /** Python truthiness of `session.get("user_id")`: present and non-empty. */
  predicate LoggedIn(session: Option<Username>) {
    session.Some? && session.value != ""
  }

  /** The authorization rule every protected route repeats: no identity goes
      home, the owner is allowed, anyone else is sent to their own page. A
      session holding the empty string counts as no identity, as it does
      under Python truthiness. */
  datatype Decision = Allow | DenyToSelf(me: Username) | DenyToHome

  function Decide(session: Option<Username>, owner: Username): Decision {
    match session
    case None => DenyToHome
    case Some(me) =>
      if me == owner then Allow
      else if me == "" then DenyToHome
      else DenyToSelf(me)
  }

  /** `show_index` (GET /): a logged-in visitor is sent to their account,
      through a `User` object in the URL; anyone else is sent to /register. */
  function ShowIndex(s: State): (r: Outcome)
    ensures r.next == s
    ensures r.response == Redirect(None, RegisterUrl) <==> !LoggedIn(s.session)
    ensures r.response.Redirect? && LoggedIn(s.session) ==>
              s.session.value in s.db.users && r.response.target == UserObj(s.session.value)
    ensures r.response == NotFound <==> LoggedIn(s.session) && s.session.value !in s.db.users
    ensures LoggedIn(s.session) && s.session.value in s.db.users ==>
              r.response == Redirect(None, UserObj(s.session.value))
  {
    if LoggedIn(s.session) then
      var me := s.session.value;
      if me in s.db.users then Outcome(s, Redirect(None, UserObj(me)))
      else Outcome(s, NotFound)
    else
      Outcome(s, Redirect(None, RegisterUrl))
  }

  /** `handle_register` (GET/POST /register). A valid submission stores the
      new user and logs them in; a taken username fails at commit. */
  function HandleRegister(env: Env, s: State, verb: Method, form: AddUserForm): (r: Outcome)
    ensures r.next.db.feedback == s.db.feedback && r.next.db.nextId == s.db.nextId
    ensures !(verb == Post && AddUserValid(form, env.emailFormat)) ==>
              r == Outcome(s, Render(None, RegisterPage))
    ensures verb == Post && AddUserValid(form, env.emailFormat) && form.username in s.db.users ==>
              r == Outcome(s, Crash)
    ensures verb == Post && AddUserValid(form, env.emailFormat) && form.username !in s.db.users ==>
              && r.next.session == Some(form.username)
              && r.response == Redirect(None, UserPage(form.username))
              && r.next.db.users.Keys == s.db.users.Keys + {form.username}
              && (forall u :: u in s.db.users ==> r.next.db.users[u] == s.db.users[u])
              && r.next.db.users[form.username]
                   == Register(env.hasher, form.username, form.password, form.email,
                               form.firstName, form.lastName)
              && (Sound(env.hasher) ==>
                    forall q :: Authenticate(env.hasher, r.next.db.users, form.username, q).Some?
                                <==> q == form.password)
  {
    if verb == Post && AddUserValid(form, env.emailFormat) then
      if form.username in s.db.users then
        Outcome(s, Crash)
      else
        var user := Register(env.hasher, form.username, form.password, form.email,
                             form.firstName, form.lastName);
        Outcome(State(s.db.(users := s.db.users[form.username := user]), Some(user.username)),
                Redirect(None, UserPage(user.username)))
    else
      Outcome(s, Render(None, RegisterPage))
  }

  /** `handle_login` (GET/POST /login). Only a valid submission whose
      credentials authenticate changes anything, and then only the session. */
  function HandleLogin(env: Env, s: State, verb: Method, form: LoginUserForm): (r: Outcome)
    ensures r.next.db == s.db
    ensures r.response.Redirect? <==>
              verb == Post && LoginUserValid(form)
              && Authenticate(env.hasher, s.db.users, form.username, form.password).Some?
    ensures r.response.Redirect? ==>
              && form.username in s.db.users
              && r.next.session == Some(s.db.users[form.username].username)
              && r.response == Redirect(None, UserPage(form.username))
    ensures r.response.Redirect? && Valid(s.db) ==> r.next.session == Some(form.username)
    ensures !r.response.Redirect? ==> r.next == s
    ensures verb == Post && LoginUserValid(form)
            && Authenticate(env.hasher, s.db.users, form.username, form.password).None? ==>
              r.response == Render(Some(WrongCredentials), LoginPage)
    ensures !(verb == Post && LoginUserValid(form)) ==> r.response == Render(None, LoginPage)
  {
    if verb == Post && LoginUserValid(form) then
      match Authenticate(env.hasher, s.db.users, form.username, form.password)
      case Some(user) =>
        Outcome(State(s.db, Some(user.username)), Redirect(None, UserPage(form.username)))
      case None =>
        Outcome(s, Render(Some(WrongCredentials), LoginPage))
    else
      Outcome(s, Render(None, LoginPage))
  }

  /** `show_user_details` (GET /users/<username>): never changes anything and
      shows an account's page to that account's session only. */
  function ShowUserDetails(s: State, username: Username): (r: Outcome)
    ensures r.next == s
    ensures r.response.Render? <==> Decide(s.session, username) == Allow
    ensures r.response.Render? ==> r.response == Render(None, UserDetails(username))
    ensures Decide(s.session, username).DenyToSelf? ==>
              r.response == Redirect(None, UserPage(Decide(s.session, username).me))
    ensures Decide(s.session, username) == DenyToHome ==> r.response == Redirect(None, Home)
  {
    if s.session == Some(username) then
      Outcome(s, Render(None, UserDetails(username)))
    else if LoggedIn(s.session) then
      Outcome(s, Redirect(None, UserPage(s.session.value)))
    else
      Outcome(s, Redirect(None, Home))
  }

  /** `delete_user` (GET/POST /users/<username>/delete). Only a POST from the
      account's own session deletes it, with its feedback, and logs out. Any
      other request is refused with a flash and a redirect built from
      `session['user_id']`, which raises when there is no session. */
  function DeleteUser(s: State, verb: Method, username: Username): (r: Outcome)
    ensures r.next.db != s.db <==>
              verb == Post && s.session == Some(username) && username in s.db.users
    ensures r.next.db != s.db ==>
              && r.next.db == CascadeDelete(s.db, username)
              && r.next.session == None
              && r.response == Redirect(None, Home)
    ensures r.next.db == s.db ==> r.next.session == s.session
    ensures verb == Post && s.session == Some(username) && username !in s.db.users ==>
              r.response == NotFound
    ensures s.session.Some? && !(verb == Post && s.session == Some(username)) ==>
              r.response == Redirect(Some(CannotDeleteOthers), UserPage(s.session.value))
    ensures s.session.None? ==> r == Outcome(s, Crash)
  {
    if verb == Post && s.session == Some(username) then
      if username !in s.db.users then
        Outcome(s, NotFound)
      else
        Outcome(State(CascadeDelete(s.db, username), None), Redirect(None, Home))
    else if s.session.Some? then
      Outcome(s, Redirect(Some(CannotDeleteOthers), UserPage(s.session.value)))
    else
      Outcome(s, Crash)
  }

  /** `handle_feedback_add` (GET/POST /users/<username>/feedback/add). */
  function HandleFeedbackAdd(s: State, verb: Method, username: Username, form: FeedbackForm): (r: Outcome)
    ensures r.next.session == s.session && r.next.db.users == s.db.users
    ensures r.next.db != s.db <==>
              && s.session == Some(username) && username in s.db.users
              && verb == Post && AddFeedbackValid(form)
              && s.db.nextId !in s.db.feedback
    ensures r.next.db != s.db ==>
              && r.next.db.feedback == s.db.feedback[s.db.nextId := Feedback(form.title, form.content, username)]
              && |r.next.db.feedback| == |s.db.feedback| + 1
              && r.next.db.nextId == s.db.nextId + 1
              && r.response == Redirect(None, UserPage(username))
    ensures && s.session == Some(username) && username in s.db.users
            && verb == Post && AddFeedbackValid(form) && s.db.nextId in s.db.feedback ==>
              r == Outcome(s, Crash)
    ensures Decide(s.session, username) != Allow ==> r.next == s
    ensures Decide(s.session, username) == DenyToHome ==> r.response == Redirect(None, Home)
    ensures Decide(s.session, username).DenyToSelf? ==>
              r.response == Redirect(None, AddFeedbackUrl(Decide(s.session, username).me))
    ensures Decide(s.session, username) == Allow && username !in s.db.users ==>
              r.response == NotFound
    ensures Decide(s.session, username) == Allow && username in s.db.users
            && !(verb == Post && AddFeedbackValid(form)) ==>
              r == Outcome(s, Render(None, AddFeedbackPage(username)))
  {
    if s.session == Some(username) then
      if username !in s.db.users then
        Outcome(s, NotFound)
      else if verb == Post && AddFeedbackValid(form) then
        match InsertFeedback(s.db, Feedback(form.title, form.content, username))
        case None => Outcome(s, Crash)
        case Some(db') => Outcome(State(db', s.session), Redirect(None, UserPage(username)))
      else
        Outcome(s, Render(None, AddFeedbackPage(username)))
    else if LoggedIn(s.session) then
      Outcome(s, Redirect(None, AddFeedbackUrl(s.session.value)))
    else
      Outcome(s, Redirect(None, Home))
  }

  /** `handle_feedback_update` (GET/POST /feedback/<int:id>/update). The
      missing-session check comes before the lookup; ownership is judged
      against the row's owner, not the URL. */
  function HandleFeedbackUpdate(s: State, verb: Method, id: nat, form: FeedbackForm): (r: Outcome)
    ensures r.next.session == s.session
    ensures r.next.db.users == s.db.users && r.next.db.nextId == s.db.nextId
    ensures s.session.None? ==> r == Outcome(s, Redirect(None, Home))
    ensures s.session.Some? && id !in s.db.feedback ==>
              r == Outcome(s, Redirect(Some(FeedbackMissing(id)), Home))
    ensures s.session.Some? && id in s.db.feedback && s.db.feedback[id].owner !in s.db.users ==>
              r == Outcome(s, NotFound)
    ensures r.next.db != s.db ==>
              && id in s.db.feedback
              && s.session == Some(s.db.feedback[id].owner)
              && verb == Post && EditFeedbackValid(form)
    ensures id in s.db.feedback && s.db.feedback[id].owner in s.db.users ==>
              var owner := s.db.feedback[id].owner;
              var d := Decide(s.session, owner);
              && (d == Allow && verb == Post && EditFeedbackValid(form) ==>
                    && r.next.db.feedback == s.db.feedback[id := Feedback(form.title, form.content, owner)]
                    && r.response == Redirect(Some(ChangesSaved), UserObj(owner)))
              && (d == Allow && !(verb == Post && EditFeedbackValid(form)) ==>
                    r == Outcome(s, Render(None, EditFeedbackPage(id))))
              && (d.DenyToSelf? ==> r == Outcome(s, Redirect(Some(UpdateNotOwner(id)), UserPage(d.me))))
              && (d == DenyToHome ==> r == Outcome(s, Redirect(None, Home)))
  {
    if s.session.None? then
      Outcome(s, Redirect(None, Home))
    else if id !in s.db.feedback then
      Outcome(s, Redirect(Some(FeedbackMissing(id)), Home))
    else
      var owner := s.db.feedback[id].owner;
      if owner !in s.db.users then
        Outcome(s, NotFound)
      else if s.session == Some(owner) then
        if verb == Post && EditFeedbackValid(form) then
          Outcome(State(EditFeedback(s.db, id, form.title, form.content), s.session),
                  Redirect(Some(ChangesSaved), UserObj(owner)))
        else
          Outcome(s, Render(None, EditFeedbackPage(id)))
      else if LoggedIn(s.session) then
        Outcome(s, Redirect(Some(UpdateNotOwner(id)), UserPage(s.session.value)))
      else
        Outcome(s, Redirect(None, Home))
  }

  /** `delete_feedback` (GET/POST /feedback/<int:id>/delete). The row is
      looked up before the session is consulted, and a refused non-owner is
      sent to the OWNER's page. */
  function DeleteFeedback(s: State, id: nat): (r: Outcome)
    ensures r.next.session == s.session
    ensures r.next.db.users == s.db.users && r.next.db.nextId == s.db.nextId
    ensures id !in s.db.feedback ==> r == Outcome(s, Redirect(Some(FeedbackMissing(id)), Home))
    ensures id in s.db.feedback && s.db.feedback[id].owner !in s.db.users ==>
              r == Outcome(s, NotFound)
    ensures r.next.db != s.db <==>
              && id in s.db.feedback && s.db.feedback[id].owner in s.db.users
              && s.session == Some(s.db.feedback[id].owner)
    ensures r.next.db != s.db ==>
              && r.next.db.feedback == s.db.feedback - {id}
              && r.response == Redirect(Some(FeedbackDeleted(id)), UserObj(s.db.feedback[id].owner))
    ensures id in s.db.feedback && s.db.feedback[id].owner in s.db.users ==>
              var owner := s.db.feedback[id].owner;
              var d := Decide(s.session, owner);
              && (d.DenyToSelf? ==> r == Outcome(s, Redirect(Some(DeleteNotOwner(id)), UserPage(owner))))
              && (d == DenyToHome ==> r == Outcome(s, Redirect(None, Home)))
  {
    if id !in s.db.feedback then
      Outcome(s, Redirect(Some(FeedbackMissing(id)), Home))
    else
      var owner := s.db.feedback[id].owner;
      if owner !in s.db.users then
        Outcome(s, NotFound)
      else if s.session == Some(owner) then
        Outcome(State(RemoveFeedback(s.db, id), s.session),
                Redirect(Some(FeedbackDeleted(id)), UserObj(owner)))
      else if LoggedIn(s.session) then
        Outcome(s, Redirect(Some(DeleteNotOwner(id)), UserPage(owner)))
      else
        Outcome(s, Redirect(None, Home))
  }

  /** `handle_logout` (GET /logout): pops the session when it is truthy. */
  function HandleLogout(s: State): (r: Outcome)
    ensures r.next.db == s.db && r.response == Redirect(None, Home)
    ensures !LoggedIn(r.next.session)
    ensures s.session != Some("") ==> r.next.session == None
    ensures s.session == Some("") ==> r.next == s
  {
    if LoggedIn(s.session) then Outcome(State(s.db, None), Redirect(None, Home))
    else Outcome(s, Redirect(None, Home))
  }

  /** The URL rules, with their URL parameters and submitted form data. */
  datatype Route =
    | Index
    | RegisterRoute(userForm: AddUserForm)
    | LoginRoute(loginForm: LoginUserForm)
    | UserRoute(username: Username)
    | DeleteUserRoute(username: Username)
    | AddFeedbackRoute(username: Username, feedbackForm: FeedbackForm)
    | UpdateFeedbackRoute(id: nat, feedbackForm: FeedbackForm)
    | DeleteFeedbackRoute(id: nat)
    | LogoutRoute

  datatype Request = Request(verb: Method, route: Route)

  /** The `methods=` list of each `@app.route`; GET only when omitted. */
  predicate Allows(route: Route, verb: Method) {
    match route
    case Index => verb == Get
    case UserRoute(_) => verb == Get
    case LogoutRoute => verb == Get
    case _ => true
  }

  /** Routing a request to its handler. A method the rule does not list is
      answered 405 before any handler runs; no handler answers 405 itself.
      A GET changes the database only on the feedback delete URL, whose
      handler never looks at the method. */
  function Handle(env: Env, s: State, req: Request): (r: Outcome)
    ensures !Allows(req.route, req.verb) ==> r == Outcome(s, MethodNotAllowed)
    ensures r.response == MethodNotAllowed <==> !Allows(req.route, req.verb)
    ensures req.verb == Get && !req.route.DeleteFeedbackRoute? ==> r.next.db == s.db
  {
    if !Allows(req.route, req.verb) then
      Outcome(s, MethodNotAllowed)
    else
      match req.route
      case Index => ShowIndex(s)
      case RegisterRoute(f) => HandleRegister(env, s, req.verb, f)
      case LoginRoute(f) => HandleLogin(env, s, req.verb, f)
      case UserRoute(u) => ShowUserDetails(s, u)
      case DeleteUserRoute(u) => DeleteUser(s, req.verb, u)
      case AddFeedbackRoute(u, f) => HandleFeedbackAdd(s, req.verb, u, f)
      case UpdateFeedbackRoute(id, f) => HandleFeedbackUpdate(s, req.verb, id, f)
      case DeleteFeedbackRoute(id) => DeleteFeedback(s, id)
      case LogoutRoute => HandleLogout(s)
  }

  /** The state after a browser sends `reqs` one after another. */
  function Run(env: Env, s: State, reqs: seq<Request>): State
    decreases |reqs|
  {
    if reqs == [] then s else Run(env, Handle(env, s, reqs[0]).next, reqs[1..])
  }
}
