/**
 * Properties of the session lifecycle that span several operations: what
 * signup, login and logout do to what the guard will later admit.
 */
module Sessions {
  import opened Wrappers
  import opened Libs
  import opened UsersModel
  import opened Validation
  import opened Http
  import opened Header
  import opened Auth
  import opened UsersController
  import opened UsersRouter

  /** An unknown email and a wrong password are answered identically, and neither changes the store. */
  lemma LoginFailuresIndistinguishable(env: Env, s: Store, unknown: Credentials, wrong: Credentials, now: nat, now': nat)
    requires env.validators.signup(unknown).None? && FindByEmail(s, unknown.email).None?
    requires env.validators.signup(wrong).None? && FindByEmail(s, wrong.email).Some?
    requires !env.hasher.compare(wrong.password, s[FindByEmail(s, wrong.email).value].password)
    ensures Login(env, s, unknown, now) == Login(env, s, wrong, now') == (s, WrongCredentials)
  {
  }

  /** Logging out twice is the same as logging out once. */
  lemma LogoutIdempotent(s: Store, user: Principal)
    ensures Logout(Logout(s, user).0, user) == Logout(s, user)
  {
    var once := Logout(s, user).0;
    var twice := Logout(once, user).0;
    if user.id < |s| {
      assert twice[user.id] == once[user.id];
    }
    assert forall j | 0 <= j < |once| :: twice[j] == once[j];
    assert twice == once;
  }

  /** With sound libraries, a valid signup for an unused email succeeds; a second signup with that email is a conflict. */
  lemma SignupTwiceConflicts(env: Env, s: Store, body: Credentials, again: Credentials)
    requires env.Sound()
    requires env.validators.signup(body).None? && FindByEmail(s, body.email).None?
    requires env.validators.signup(again).None? && again.email == body.email
    ensures Signup(env, s, body).1.status == 201
    ensures Signup(env, Signup(env, s, body).0, again) == (Signup(env, s, body).0, EmailInUse)
  {
  }

  /** The account holds no live session: its token is `null` or `""` (or it does not exist yet). */
  ghost predicate Sessionless(s: Store, id: Id) {
    id >= |s| || !Truthy(s[id].token)
  }

  /**
   * A login with these credentials cannot succeed as the account holding
   * `email` and password hash `hash`: it names another email, the validator
   * rejects the body, or the password does not match the hash.
   */
  predicate LoginFailsFor(env: Env, email: string, hash: string, c: Credentials) {
    c.email != email || env.validators.signup(c).Some? || !env.hasher.compare(c.password, hash)
  }

  /**
   * Only a successful login to the account itself can give it a live session:
   * any other request keeps a sessionless account sessionless, and keeps its
   * email and password at its position; a login that cannot succeed as it
   * leaves the account untouched.
   */
  lemma DispatchKeepsSessionless(env: Env, s: Store, req: Request, authorization: Option<string>, now: nat, id: Id)
    requires Sessionless(s, id)
    requires req.LoginRequest? ==> id < |s| && LoginFailsFor(env, s[id].email, s[id].password, req.credentials)
    ensures |Dispatch(env, s, req, authorization, now).0| >= |s|
    ensures id < |s| ==> Dispatch(env, s, req, authorization, now).0[id].email == s[id].email
    ensures id < |s| ==> Dispatch(env, s, req, authorization, now).0[id].password == s[id].password
    ensures req.LoginRequest? ==> Dispatch(env, s, req, authorization, now).0[id] == s[id]
    ensures Sessionless(Dispatch(env, s, req, authorization, now).0, id)
  {
  }

  /** Through any sequence of requests with no successful login to it, a sessionless account stays sessionless. */
  lemma {:induction false} RunKeepsSessionless(env: Env, s: Store, calls: seq<Call>, id: Id)
    requires Sessionless(s, id)
    requires forall k | 0 <= k < |calls| :: calls[k].request.LoginRequest? ==>
      id < |s| && LoginFailsFor(env, s[id].email, s[id].password, calls[k].request.credentials)
    ensures |Run(env, s, calls)| >= |s|
    ensures id < |s| ==> Run(env, s, calls)[id].email == s[id].email
    ensures id < |s| ==> Run(env, s, calls)[id].password == s[id].password
    ensures Sessionless(Run(env, s, calls), id)
    decreases |calls|
  {
    if calls != [] {
      var c := calls[0];
      DispatchKeepsSessionless(env, s, c.request, c.authorization, c.now, id);
      var s' := Dispatch(env, s, c.request, c.authorization, c.now).0;
      assert forall k | 0 <= k < |calls[1..]| :: calls[1..][k] == calls[k + 1];
      RunKeepsSessionless(env, s', calls[1..], id);
    }
  }

  /**
   * A freshly created account has no session, and keeps none until a login
   * to it succeeds: after signup and any sequence of requests whose logins
   * cannot succeed as it, the guard admits no request as it.
   */
  lemma {:induction false} NewAccountSessionless(env: Env, s: Store, body: Credentials, calls: seq<Call>,
                                              authorization: Option<string>, now: nat)
    requires Signup(env, s, body).1.status == 201
    requires forall k | 0 <= k < |calls| :: calls[k].request.LoginRequest? ==>
      LoginFailsFor(env, body.email, env.hasher.hash(body.password), calls[k].request.credentials)
    ensures Sessionless(Run(env, Signup(env, s, body).0, calls), |s|)
    ensures Guard(env.codec, Run(env, Signup(env, s, body).0, calls), authorization, now).Allow? ==>
      Guard(env.codec, Run(env, Signup(env, s, body).0, calls), authorization, now).principal.id != |s|
  {
    var s1 := Signup(env, s, body).0;
    assert |s1| == |s| + 1 && s1[|s|].email == body.email && s1[|s|].password == env.hasher.hash(body.password);
    RunKeepsSessionless(env, s1, calls, |s|);
  }

  /**
   * A token used to log out is refused on every later guarded request until
   * the next successful login to that account, expired or not: the store
   * after logout, and after any sequence of requests whose logins cannot
   * succeed as the account, refuses a header presenting the same token and
   * admits no request as the logged-out account. Logins to other accounts,
   * and failed logins to this one, do not matter.
   */
  lemma {:induction false} LogoutRevokesToken(env: Env, s: Store, authorization: Option<string>, now: nat,
                                              calls: seq<Call>, later: Option<string>, now': nat)
    requires Guard(env.codec, s, authorization, now).Allow?
    requires forall k | 0 <= k < |calls| :: calls[k].request.LoginRequest? ==>
      LoginFailsFor(env, Guard(env.codec, s, authorization, now).principal.account.email,
                    Guard(env.codec, s, authorization, now).principal.account.password, calls[k].request.credentials)
    requires ParseBearer(HeaderValue(later)) == ParseBearer(HeaderValue(authorization))
    ensures Guard(env.codec, Run(env, Dispatch(env, s, LogoutRequest, authorization, now).0, calls), later, now')
            == Deny(NotAuthorized)
  {
    var id := Guard(env.codec, s, authorization, now).principal.id;
    var t := s[id].token.value;
    var s1 := Dispatch(env, s, LogoutRequest, authorization, now).0;
    assert Sessionless(s1, id);
    assert id < |s1| && s1[id].email == s[id].email && s1[id].password == s[id].password;
    RunKeepsSessionless(env, s1, calls, id);
    var s2 := Run(env, s1, calls);
    var v := Guard(env.codec, s2, later, now');
    if v.Allow? {
      var u := s2[v.principal.id].token.value;
      ParseBearerPresents(HeaderValue(authorization), t);
      ParseBearerPresents(HeaderValue(later), u);
      assert false;
    }
  }

  /** The token login answers with is the one it stored, and the guard admits it as that account until it expires. */
  lemma LoginThenGuardAdmits(env: Env, s: Store, body: Credentials, now: nat, now': nat)
    requires env.Sound()
    requires Login(env, s, body, now).1.status == 200
    ensures
      var (s', r) := Login(env, s, body, now);
      var id := FindByEmail(s, body.email).value;
      var token := r.payload.token;
      && s'[id].token == Some(token)
      && (now' < now + Lifetime ==>
            Guard(env.codec, s', Some(Scheme + [' '] + token), now') == Allow(Principal(id, s'[id])))
      && (now' >= now + Lifetime ==> Guard(env.codec, s', Some(Scheme + [' '] + token), now').Deny?)
  {
    var (s', r) := Login(env, s, body, now);
    var id := FindByEmail(s, body.email).value;
    var token := r.payload.token;
    assert token == env.codec.sign(Claims(id, now));
    var h := Scheme + [' '] + token;
    assert h[..|Scheme|] == Scheme;
    assert h[|Scheme| + 1 ..] == token;
    assert Presents(h, token);
    VerifySigned(env.codec, id, now, now');
    if now' < now + Lifetime {
      GuardAdmits(env.codec, s', Some(h), now', id, token);
    } else {
      GuardRefusesUnverified(env.codec, s', Some(h), now', token);
    }
  }

  /**
   * Single live session: after a second login the first login's token is
   * refused, unless both logins minted the very same token (jwt's issue time
   * has one-second granularity).
   */
  lemma SecondLoginRevokesFirst(env: Env, s: Store, first: Credentials, second: Credentials, now: nat, now': nat,
                                authorization: Option<string>, now'': nat)
    requires env.Sound()
    requires Login(env, s, first, now).1.status == 200
    requires Login(env, Login(env, s, first, now).0, second, now').1.status == 200
    requires second.email == first.email
    requires Presents(HeaderValue(authorization), Login(env, s, first, now).1.payload.token)
    requires Login(env, s, first, now).1.payload.token != Login(env, Login(env, s, first, now).0, second, now').1.payload.token
    ensures Guard(env.codec, Login(env, Login(env, s, first, now).0, second, now').0, authorization, now'') == Deny(NotAuthorized)
  {
    var (s1, r1) := Login(env, s, first, now);
    var (s2, r2) := Login(env, s1, second, now');
    var id := FindByEmail(s, first.email).value;
    assert FindByEmail(s1, first.email) == FindByEmail(s, first.email);
    VerifySigned(env.codec, id, now, now'');
    var t1 := r1.payload.token;
    assert !HoldsSession(s2, id, t1);
    if Verify(env.codec, t1, now'') == Some(id) {
      GuardRefusesStaleToken(env.codec, s2, authorization, now'', id, t1);
    }
  }

  /** With sound libraries, a fresh signup followed by a login with the same credentials succeeds for the new account. */
  lemma SignupThenLogin(env: Env, s: Store, body: Credentials, now: nat)
    requires env.Sound() && Valid(s)
    requires env.validators.signup(body).None? && FindByEmail(s, body.email).None?
    ensures
      var s1 := Signup(env, s, body).0;
      var login := Login(env, s1, body, now);
      && FindByEmail(s1, body.email) == Some(|s|)
      && login.1.status == 200
      && login.1.payload.Session?
      && login.1.payload.user == Profile(body.email, "starter")
      && login.0[|s|].email == body.email && login.0[|s|].subscription == "starter"
  {
    var s1 := Signup(env, s, body).0;
    assert s1[|s|].email == body.email;
    FindByEmailUnique(s1, body.email, |s|);
  }

  /**
   * A whole session: sign up, log in, read the profile with the token, log
   * out with it, then read again with it.
   */
  lemma Walkthrough(env: Env, s: Store, body: Credentials, t1: nat, t2: nat, t3: nat, t4: nat)
    requires env.Sound() && Valid(s)
    requires env.validators.signup(body).None? && FindByEmail(s, body.email).None?
    requires t2 <= t3 < t2 + Lifetime
    ensures
      var signup := Dispatch(env, s, SignupRequest(body), None, t1);
      var login := Dispatch(env, signup.0, LoginRequest(body), None, t2);
      var auth := if login.1.payload.Session? then Some(Scheme + [' '] + login.1.payload.token) else None;
      var current := Dispatch(env, login.0, CurrentRequest, auth, t3);
      var logout := Dispatch(env, current.0, LogoutRequest, auth, t3);
      var again := Dispatch(env, logout.0, CurrentRequest, auth, t4);
      && signup.1 == Response(201, Registered(Profile(body.email, "starter")))
      && login.1.status == 200 && login.1.payload.Session? && login.1.payload.user == Profile(body.email, "starter")
      && current.1 == Response(200, Details(Profile(body.email, "starter")))
      && logout.1 == Response(204, NoContent)
      && again.1 == NotAuthorized
  {
    var signup := Dispatch(env, s, SignupRequest(body), None, t1);
    var s1 := signup.0;
    SignupThenLogin(env, s, body, t2);
    var login := Dispatch(env, s1, LoginRequest(body), None, t2);
    var s2 := login.0;
    var auth := if login.1.payload.Session? then Some(Scheme + [' '] + login.1.payload.token) else None;
    LoginThenGuardAdmits(env, s1, body, t2, t3);
    var user := Principal(|s|, s2[|s|]);
    assert Guard(env.codec, s2, auth, t3) == Allow(user);
    var current := Dispatch(env, s2, CurrentRequest, auth, t3);
    assert current == Current(s2, user);
    var logout := Dispatch(env, current.0, LogoutRequest, auth, t3);
    assert logout == Logout(s2, user);
    LogoutRevokesToken(env, s2, auth, t3, [], auth, t4);
    assert Run(env, logout.0, []) == logout.0;
    assert Guard(env.codec, logout.0, auth, t4) == Deny(NotAuthorized);
  }
}
