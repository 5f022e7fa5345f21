/** The database constraints of models.py hold in every state the handlers
    can reach, and under them the only crashes left are the two the source
    really has. */
module Invariants {
  import opened Wrappers
  import opened Forms
  import opened Models
  import opened App

  /** The database constraints, and a session that, when present, holds a
      username some form accepted (so never the empty string). */
  predicate Consistent(s: State) {
    Valid(s.db) && s.session != Some("")
  }

  lemma InitConsistent()
    ensures Consistent(Init)
  {
  }

  lemma RegisterKeepsConsistent(env: Env, s: State, verb: Method, form: AddUserForm)
    requires Consistent(s)
    ensures Consistent(HandleRegister(env, s, verb, form).next)
  {
  }

  lemma LoginKeepsConsistent(env: Env, s: State, verb: Method, form: LoginUserForm)
    requires Consistent(s)
    ensures Consistent(HandleLogin(env, s, verb, form).next)
  {
  }

  lemma DeleteUserKeepsConsistent(s: State, verb: Method, username: Username)
    requires Consistent(s)
    ensures Consistent(DeleteUser(s, verb, username).next)
  {
    if verb == Post && s.session == Some(username) && username in s.db.users {
      CascadeDeleteKeepsValid(s.db, username);
    }
  }

  lemma FeedbackAddKeepsConsistent(s: State, verb: Method, username: Username, form: FeedbackForm)
    requires Consistent(s)
    ensures Consistent(HandleFeedbackAdd(s, verb, username, form).next)
  {
    if s.session == Some(username) && username in s.db.users && verb == Post && AddFeedbackValid(form) {
      InsertKeepsValid(s.db, Feedback(form.title, form.content, username));
    }
  }

  lemma FeedbackUpdateKeepsConsistent(s: State, verb: Method, id: nat, form: FeedbackForm)
    requires Consistent(s)
    ensures Consistent(HandleFeedbackUpdate(s, verb, id, form).next)
  {
  }

  lemma DeleteFeedbackKeepsConsistent(s: State, id: nat)
    requires Consistent(s)
    ensures Consistent(DeleteFeedback(s, id).next)
  {
  }

  /** Every request keeps the constraints. */
  lemma HandleKeepsConsistent(env: Env, s: State, req: Request)
    requires Consistent(s)
    ensures Consistent(Handle(env, s, req).next)
  {
    if Allows(req.route, req.verb) {
      match req.route
      case Index =>
      case RegisterRoute(f) =>
        assert Handle(env, s, req) == HandleRegister(env, s, req.verb, f);
        RegisterKeepsConsistent(env, s, req.verb, f);
      case LoginRoute(f) =>
        assert Handle(env, s, req) == HandleLogin(env, s, req.verb, f);
        LoginKeepsConsistent(env, s, req.verb, f);
      case UserRoute(u) =>
      case DeleteUserRoute(u) =>
        assert Handle(env, s, req) == DeleteUser(s, req.verb, u);
        DeleteUserKeepsConsistent(s, req.verb, u);
      case AddFeedbackRoute(u, f) =>
        assert Handle(env, s, req) == HandleFeedbackAdd(s, req.verb, u, f);
        FeedbackAddKeepsConsistent(s, req.verb, u, f);
      case UpdateFeedbackRoute(id, f) =>
        assert Handle(env, s, req) == HandleFeedbackUpdate(s, req.verb, id, f);
        FeedbackUpdateKeepsConsistent(s, req.verb, id, f);
      case DeleteFeedbackRoute(id) =>
        assert Handle(env, s, req) == DeleteFeedback(s, id);
        DeleteFeedbackKeepsConsistent(s, id);
      case LogoutRoute =>
    }
  }

  /** Every sequence of requests keeps the constraints. */
  lemma {:induction false} RunKeepsConsistent(env: Env, s: State, reqs: seq<Request>)
    requires Consistent(s)
    ensures Consistent(Run(env, s, reqs))
    decreases |reqs|
  {
    if reqs != [] {
      HandleKeepsConsistent(env, s, reqs[0]);
      RunKeepsConsistent(env, Handle(env, s, reqs[0]).next, reqs[1..]);
    }
  }

  /** Every state a browser reaches from a fresh database is consistent. */
  lemma ReachableConsistent(env: Env, reqs: seq<Request>)
    ensures Consistent(Run(env, Init, reqs))
  {
    InitConsistent();
    RunKeepsConsistent(env, Init, reqs);
  }

  /** Under the constraints the feedback id sequence never collides, so the
      only crashes are `delete_user` without a session (the KeyError on
      `session['user_id']`) and registering a taken username (the primary
      key violation at commit). */
  lemma CrashCases(env: Env, s: State, req: Request)
    requires Consistent(s)
    ensures Handle(env, s, req).response == Crash <==>
              || (req.route.DeleteUserRoute? && s.session.None?)
              || (req.route.RegisterRoute? && req.verb == Post
                  && AddUserValid(req.route.userForm, env.emailFormat)
                  && req.route.userForm.username in s.db.users)
  {
  }

  /** Under the constraints a feedback row's owner always exists, so a
      `get_or_404` abort comes only from a session naming a deleted user. */
  lemma NotFoundMeansStaleSession(env: Env, s: State, req: Request)
    requires Consistent(s)
    ensures Handle(env, s, req).response == NotFound ==>
              s.session.Some? && s.session.value !in s.db.users
  {
  }
}
