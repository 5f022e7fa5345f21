/** Authorization and "nothing else changes" properties of the handlers,
    for one request and for whole sequences of requests. */
module Security {
  import opened Wrappers
  import opened Forms
  import opened Models
  import opened Flashes
  import opened App

  /** The routes whose handlers apply the authorization rule. */
  predicate Protected(route: Route) {
    || route.UserRoute? || route.DeleteUserRoute? || route.AddFeedbackRoute?
    || route.UpdateFeedbackRoute? || route.DeleteFeedbackRoute?
  }

  /** The owner the rule compares the session against: the account in the
      URL, or the stored owner of the feedback row, never the URL. */
  function ResourceOwner(s: State, route: Route): Option<Username>
    requires Protected(route)
  {
    match route
    case UserRoute(u) => Some(u)
    case DeleteUserRoute(u) => Some(u)
    case AddFeedbackRoute(u, _) => Some(u)
    case UpdateFeedbackRoute(id, _) =>
      if id in s.db.feedback then Some(s.db.feedback[id].owner) else None
    case DeleteFeedbackRoute(id) =>
      if id in s.db.feedback then Some(s.db.feedback[id].owner) else None
  }

  /** A protected request whose resource is missing, or whose owner the
      authorization rule does not allow, leaves the whole state as it was. */
  lemma DeniedRequestChangesNothing(env: Env, s: State, req: Request)
    requires Protected(req.route)
    requires ResourceOwner(s, req.route).None?
             || Decide(s.session, ResourceOwner(s, req.route).value) != Allow
    ensures Handle(env, s, req).next == s
  {
  }

  /** Whatever the request, a feedback row is changed or removed only by a
      request made under its owner's session. */
  lemma OnlyOwnerChangesFeedback(env: Env, s: State, req: Request, id: nat)
    requires id in s.db.feedback
    ensures var t := Handle(env, s, req).next;
            (id !in t.db.feedback || t.db.feedback[id] != s.db.feedback[id]) ==>
              s.session == Some(s.db.feedback[id].owner)
  {
  }

  /** Whatever the request, an account is changed or removed only by a POST
      to its own delete URL made under its own session. */
  lemma OnlyOwnerRemovesAccount(env: Env, s: State, req: Request, u: Username)
    requires u in s.db.users
    ensures var t := Handle(env, s, req).next;
            (u !in t.db.users || t.db.users[u] != s.db.users[u]) ==>
              s.session == Some(u) && req == Request(Post, DeleteUserRoute(u))
  {
  }

  /** Only the login, register, logout and delete-account routes touch the
      session. */
  lemma SessionChangesOnlyThere(env: Env, s: State, req: Request)
    ensures Handle(env, s, req).next.session != s.session ==>
              || req.route.LoginRoute? || req.route.RegisterRoute?
              || req.route.LogoutRoute? || req.route.DeleteUserRoute?
  {
  }

  /** Deleting one's own account removes every feedback row one owned (the
      table shrinks by exactly their number) and leaves every other user's
      rows as they were. */
  lemma DeleteAccountCascades(s: State, u: Username)
    requires s.session == Some(u) && u in s.db.users
    ensures var t := DeleteUser(s, Post, u).next;
            && u !in t.db.users
            && OwnedBy(t.db, u) == {}
            && |t.db.feedback| == |s.db.feedback| - |OwnedBy(s.db, u)|
            && (forall id :: id in s.db.feedback && s.db.feedback[id].owner != u ==>
                  id in t.db.feedback && t.db.feedback[id] == s.db.feedback[id])
  {
    CascadeDeleteCount(s.db, u);
  }

  /** A failed login answers the same, and leaves the same state, whether the
      username was unknown or the password wrong. */
  lemma LoginFailuresLookAlike(env: Env, s: State, f1: LoginUserForm, f2: LoginUserForm)
    requires LoginUserValid(f1) && LoginUserValid(f2)
    requires f1.username !in s.db.users
    requires f2.username in s.db.users
    requires !env.hasher.check(s.db.users[f2.username].password, f2.password)
    ensures HandleLogin(env, s, Post, f1) == HandleLogin(env, s, Post, f2)
    ensures HandleLogin(env, s, Post, f1) == Outcome(s, Render(Some(WrongCredentials), LoginPage))
  {
  }

  /** Logging out twice is logging out once. */
  lemma LogoutIdempotent(s: State)
    ensures HandleLogout(HandleLogout(s).next) == HandleLogout(s)
  {
  }

  /** The browser never acts under `owner`'s session while sending `reqs`. */
  predicate NeverActsAs(env: Env, s: State, reqs: seq<Request>, owner: Username)
    decreases |reqs|
  {
    reqs == [] ||
    (s.session != Some(owner) && NeverActsAs(env, Handle(env, s, reqs[0]).next, reqs[1..], owner))
  }

  /** A feedback row survives, unchanged, any sequence of requests none of
      which is made under its owner's session. */
  lemma {:induction false} UntouchedWithoutOwner(env: Env, s: State, reqs: seq<Request>, id: nat)
    requires id in s.db.feedback
    requires NeverActsAs(env, s, reqs, s.db.feedback[id].owner)
    ensures id in Run(env, s, reqs).db.feedback
    ensures Run(env, s, reqs).db.feedback[id] == s.db.feedback[id]
    decreases |reqs|
  {
    if reqs != [] {
      var t := Handle(env, s, reqs[0]).next;
      OnlyOwnerChangesFeedback(env, s, reqs[0], id);
      UntouchedWithoutOwner(env, t, reqs[1..], id);
    }
  }

  /** The browser never sends a POST to `u`'s delete URL under `u`'s session
      while sending `reqs`. */
  predicate NeverDeletesAs(env: Env, s: State, reqs: seq<Request>, u: Username)
    decreases |reqs|
  {
    reqs == [] ||
    (!(s.session == Some(u) && reqs[0] == Request(Post, DeleteUserRoute(u)))
     && NeverDeletesAs(env, Handle(env, s, reqs[0]).next, reqs[1..], u))
  }

  /** An account survives, unchanged, any sequence of requests that never
      asks to delete it from its own session. */
  lemma {:induction false} AccountSurvives(env: Env, s: State, reqs: seq<Request>, u: Username)
    requires u in s.db.users
    requires NeverDeletesAs(env, s, reqs, u)
    ensures u in Run(env, s, reqs).db.users
    ensures Run(env, s, reqs).db.users[u] == s.db.users[u]
    decreases |reqs|
  {
    if reqs != [] {
      OnlyOwnerRemovesAccount(env, s, reqs[0], u);
      AccountSurvives(env, Handle(env, s, reqs[0]).next, reqs[1..], u);
    }
  }

  /** The flash message a response carries, if any. */
  function FlashOf(r: Response): Option<Message> {
    if r.Render? || r.Redirect? then r.flash else None
  }

  /** Every flash in the error category reports a refusal or a failure:
      a request answered with one leaves the whole state as it was. */
  lemma ErrorFlashChangesNothing(env: Env, s: State, req: Request)
    ensures var r := Handle(env, s, req);
            FlashOf(r.response).Some? && CategoryOf(FlashOf(r.response).value) == Error ==>
              r.next == s
  {
  }
}
