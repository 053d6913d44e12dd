/**
 * The five account operations. Each is a store transition returning the new
 * store and the response; the protected ones take the account the guard
 * resolved (`req.user`).
 */
module UsersController {
  import opened Wrappers
  import opened Libs
  import opened UsersModel
  import opened Validation
  import opened Http
  import opened Auth

  /** The libraries the operations call, with the service's secret and salt rounds fixed. */
  datatype Env = Env(hasher: Hasher, codec: Codec, validators: Validators) {
    ghost predicate Sound() {
      hasher.Sound() && codec.Sound() && validators.Sound()
    }
  }

  const EmailInUse: Response := Response(409, Message("Email in Use"))

  /** The one answer to an unknown email and to a wrong password alike. */
  const WrongCredentials: Response := Response(401, Message("Email or password is wrong"))

  /** The message Node gives when `updatedUser` is `null` and its `email` is read. */
  const NullUpdate: string := "Cannot read properties of null (reading 'email')"

  /** What the service reveals about an account. */
  function ProfileOf(a: Account): Profile {
    Profile(a.email, a.subscription)
  }

  /** `signupUser`. */
  function Signup(env: Env, s: Store, body: Credentials): (r: (Store, Response))
    ensures env.validators.signup(body).Some? ==>
      r == (s, Response(400, Message(env.validators.signup(body).value)))
    ensures env.validators.signup(body).None? && FindByEmail(s, body.email).Some? ==> r == (s, EmailInUse)
    ensures r.1.status == 201 <==>
      && env.validators.signup(body).None?
      && FindByEmail(s, body.email).None?
      && body.email != "" && env.hasher.hash(body.password) != ""
    ensures r.1.status != 201 ==> r.0 == s
    ensures r.1.status == 201 ==>
      && |r.0| == |s| + 1 && r.0[..|s|] == s
      && r.0[|s|] == Account(body.email, env.hasher.hash(body.password), "starter", None)
      && r.1.payload == Registered(Profile(body.email, "starter"))
    ensures Valid(s) ==> Valid(r.0)
  {
    match env.validators.signup(body)
    case Some(message) => (s, Response(400, Message(message)))
    case None =>
      if FindByEmail(s, body.email).Some? then (s, EmailInUse)
      else
        match Create(s, body.email, env.hasher.hash(body.password))
        case Err(e) => (s, Response(500, Message(e.Text())))
        case Ok(s') => (s', Response(201, Registered(ProfileOf(s'[|s|]))))
  }

  /** `loginUser`, with `now` the clock reading `jwt.sign` stamps into the token. */
  function Login(env: Env, s: Store, body: Credentials, now: nat): (r: (Store, Response))
    ensures env.validators.signup(body).Some? ==>
      r == (s, Response(401, Message(env.validators.signup(body).value)))
    ensures env.validators.signup(body).None? && FindByEmail(s, body.email).None? ==> r == (s, WrongCredentials)
    ensures (env.validators.signup(body).None? && FindByEmail(s, body.email).Some? &&
             !env.hasher.compare(body.password, s[FindByEmail(s, body.email).value].password)) ==>
              r == (s, WrongCredentials)
    ensures r.1.status == 200 <==>
      && env.validators.signup(body).None?
      && FindByEmail(s, body.email).Some?
      && env.hasher.compare(body.password, s[FindByEmail(s, body.email).value].password)
    ensures r.1.status != 200 ==> r.0 == s
    ensures r.1.status == 200 ==>
      var id := FindByEmail(s, body.email).value;
      && |r.0| == |s|
      && (forall j | 0 <= j < |s| && j != id :: r.0[j] == s[j])
      && r.0[id] == s[id].(token := Some(env.codec.sign(Claims(id, now))))
      && r.1.payload == Session(env.codec.sign(Claims(id, now)), ProfileOf(s[id]))
    ensures Valid(s) ==> Valid(r.0)
  {
    match env.validators.signup(body)
    case Some(message) => (s, Response(401, Message(message)))
    case None =>
      match FindByEmail(s, body.email)
      case None => (s, WrongCredentials)
      case Some(id) =>
        if !env.hasher.compare(body.password, s[id].password) then (s, WrongCredentials)
        else
          var token := env.codec.sign(Claims(id, now));
          (SetToken(s, id, Some(token)), Response(200, Session(token, ProfileOf(s[id]))))
  }

  /** `logoutUser`: clears the session token of the guarded account; answers 204 with no body. */
  function Logout(s: Store, user: Principal): (r: (Store, Response))
    ensures r.1 == Response(204, NoContent)
    ensures |r.0| == |s|
    ensures forall j | 0 <= j < |s| && j != user.id :: r.0[j] == s[j]
    ensures user.id < |s| ==> r.0[user.id] == s[user.id].(token := Some(""))
    ensures user.id < |s| ==> !Truthy(r.0[user.id].token)
    ensures Valid(s) ==> Valid(r.0)
  {
    (SetToken(s, user.id, Some("")), Response(204, NoContent))
  }

  /** `getCurrentUsers`: a pure read of the guarded account. */
  function Current(s: Store, user: Principal): (r: (Store, Response))
    ensures r.0 == s
    ensures r.1.status == 200 && r.1.payload.Details?
    ensures r.1.payload.profile.email == user.account.email
    ensures r.1.payload.profile.subscription == user.account.subscription
  {
    (s, Response(200, Details(ProfileOf(user.account))))
  }

  /** `updateUserSubscription`: validates the body, then stores the new subscription and answers with the updated document. */
  function UpdateSubscription(env: Env, s: Store, user: Principal, patch: SubscriptionPatch): (r: (Store, Response))
    ensures env.validators.subscription(patch).Some? ==>
      r == (s, Response(400, Message(env.validators.subscription(patch).value)))
    ensures r.1.status == 200 <==> env.validators.subscription(patch).None? && user.id < |s|
    ensures r.1.status != 200 ==> r.0 == s
    ensures r.1.status == 200 ==>
      && |r.0| == |s|
      && (forall j | 0 <= j < |s| && j != user.id :: r.0[j] == s[j])
      && r.0[user.id] == s[user.id].(subscription := patch.subscription)
      && r.1.payload == Details(Profile(s[user.id].email, patch.subscription))
    ensures Valid(s) && env.validators.Sound() ==> Valid(r.0)
  {
    match env.validators.subscription(patch)
    case Some(message) => (s, Response(400, Message(message)))
    case None =>
      if user.id < |s| then
        var s' := SetSubscription(s, user.id, patch.subscription);
        (s', Response(200, Details(ProfileOf(s'[user.id]))))
      else (s, Response(500, Message(NullUpdate)))
  }
}
