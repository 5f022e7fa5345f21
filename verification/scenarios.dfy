/** Concrete request sequences that exercise the behaviour the application
    promises, and round trips between its routes. */
module Scenarios {
  import opened Wrappers
  import opened Forms
  import opened Models
  import opened Flashes
  import opened App
  import opened Invariants

  /** Registering, logging out and logging back in succeeds exactly for the
      registered password. */
  lemma RegisterThenLogin(env: Env, s: State, form: AddUserForm, candidate: string)
    requires Sound(env.hasher)
    requires AddUserValid(form, env.emailFormat) && form.username !in s.db.users
    ensures var out := HandleLogout(HandleRegister(env, s, Post, form).next).next;
            var r := HandleLogin(env, out, Post, LoginUserForm(form.username, candidate));
            && out.session == None
            && (r.next.session == Some(form.username) <==> candidate == form.password)
  {
  }

  const AliceForm := AddUserForm("alice", "pw1", "alice@example.com", "Alice", "Adams")
  const BobForm := AddUserForm("bob", "pw2", "bob@example.com", "Bob", "Brown")

  /** alice registers and logs out; logging in with a wrong password fails
      with the flash and no session, and with the right one logs her in. */
  lemma WrongPasswordThenRightPassword(env: Env)
    requires Sound(env.hasher) && env.emailFormat(AliceForm.email)
    ensures var s1 := HandleLogout(HandleRegister(env, Init, Post, AliceForm).next).next;
            var bad := HandleLogin(env, s1, Post, LoginUserForm("alice", "wrongpw"));
            var good := HandleLogin(env, bad.next, Post, LoginUserForm("alice", "pw1"));
            && bad.response == Render(Some(WrongCredentials), LoginPage)
            && bad.next.session == None
            && good.next.session == Some("alice")
            && good.response == Redirect(None, UserPage("alice"))
  {
    var s1 := HandleLogout(HandleRegister(env, Init, Post, AliceForm).next).next;
    assert "alice" in s1.db.users && s1.session == None;
    assert env.hasher.check(s1.db.users["alice"].password, "pw1");
    assert !env.hasher.check(s1.db.users["alice"].password, "wrongpw");
  }

  /** alice writes feedback 1; bob, logged in, asks to edit it and is sent to
      his own page with the ownership flash, and the row stays as it was. */
  lemma ForeignUpdateRefused(env: Env)
    requires env.emailFormat(AliceForm.email) && env.emailFormat(BobForm.email)
    ensures var s1 := HandleRegister(env, Init, Post, AliceForm).next;
            var s2 := HandleFeedbackAdd(s1, Post, "alice", FeedbackForm("t1", "c1")).next;
            var s3 := HandleRegister(env, HandleLogout(s2).next, Post, BobForm).next;
            var r := HandleFeedbackUpdate(s3, Post, 1, FeedbackForm("t2", "c2"));
            && 1 in r.next.db.feedback
            && r.next.db.feedback[1] == Feedback("t1", "c1", "alice")
            && r.response == Redirect(Some(UpdateNotOwner(1)), UserPage("bob"))
  {
    var s1 := HandleRegister(env, Init, Post, AliceForm).next;
    assert s1.session == Some("alice") && "alice" in s1.db.users && s1.db.nextId == 1;
    var s2 := HandleFeedbackAdd(s1, Post, "alice", FeedbackForm("t1", "c1")).next;
    assert s2.db.feedback[1] == Feedback("t1", "c1", "alice");
    var s3 := HandleRegister(env, HandleLogout(s2).next, Post, BobForm).next;
    assert s3.session == Some("bob") && "alice" in s3.db.users;
    assert s3.db.feedback[1] == Feedback("t1", "c1", "alice");
  }

  /** Once its owner deletes a feedback item, both the delete and the edit
      routes report it as missing. */
  lemma DeletedFeedbackIsGone(s: State, id: nat, verb: Method, form: FeedbackForm)
    requires id in s.db.feedback && s.db.feedback[id].owner in s.db.users
    requires s.session == Some(s.db.feedback[id].owner)
    ensures var t := DeleteFeedback(s, id).next;
            && DeleteFeedback(t, id) == Outcome(t, Redirect(Some(FeedbackMissing(id)), Home))
            && HandleFeedbackUpdate(t, verb, id, form) == Outcome(t, Redirect(Some(FeedbackMissing(id)), Home))
  {
  }

  /** The email column is not unique: two accounts sharing an address are a
      consistent state one browser reaches from a fresh database. */
  lemma SharedEmailReachable(env: Env, email: string)
    requires env.emailFormat(email) && |email| <= EmailMax
    ensures var reqs := [Request(Post, RegisterRoute(AliceForm.(email := email))),
                         Request(Post, RegisterRoute(BobForm.(email := email)))];
            var s := Run(env, Init, reqs);
            && Consistent(s)
            && "alice" in s.db.users && "bob" in s.db.users
            && s.db.users["alice"].email == email == s.db.users["bob"].email
  {
    var reqs := [Request(Post, RegisterRoute(AliceForm.(email := email))),
                 Request(Post, RegisterRoute(BobForm.(email := email)))];
    var s1 := Handle(env, Init, reqs[0]).next;
    var s2 := Handle(env, s1, reqs[1]).next;
    assert Run(env, s2, []) == s2;
    assert reqs[1..][1..] == [];
    assert Run(env, s1, reqs[1..]) == s2;
    assert Run(env, Init, reqs) == s2;
    ReachableConsistent(env, reqs);
  }
}
