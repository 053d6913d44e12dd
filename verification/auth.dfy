/**
 * `authenticateToken`: the gate in front of every protected operation. It
 * reads the bearer token, verifies it, loads the account the token names and
 * admits the request only if that account's stored token is non-empty and
 * equal to the presented one. It reads the store and never changes it.
 */
module Auth {
  import opened Wrappers
  import opened Libs
  import opened UsersModel
  import opened Http
  import opened Header

  /** `req.user`: the account the guard resolved, with its id. */
  datatype Principal = Principal(id: Id, account: Account)

  /** The guard either answers the request itself or passes it on with the resolved account. */
  datatype Verdict = Deny(response: Response) | Allow(principal: Principal)

  /** The one answer every refusal gives. */
  const NotAuthorized: Response := Response(401, Message("Not authorized"))

  /** The header value the middleware reads: an absent `Authorization` header counts as the empty string. */
  function HeaderValue(authorization: Option<string>): string {
    match authorization
    case None => ""
    case Some(h) => h
  }

  /** JavaScript truthiness of a stored token: neither `null` nor `""`. */
  predicate Truthy(token: Option<string>) {
    token.Some? && token.value != ""
  }

  /** True when account id holds t as its live session token. */
  predicate HoldsSession(s: Store, id: Id, t: string) {
    id < |s| && Truthy(s[id].token) && s[id].token.value == t
  }

  /**
   * The middleware's verdict on a request: the 401 refusal, or the account
   * whose live session token the request presents, still valid at `now`.
   */
  function Guard(codec: Codec, s: Store, authorization: Option<string>, now: nat): (v: Verdict)
    ensures v.Deny? ==> v.response == NotAuthorized
    ensures v.Allow? ==> v.principal.id < |s| && v.principal.account == s[v.principal.id]
    ensures v.Allow? ==> Truthy(s[v.principal.id].token)
    ensures v.Allow? ==> Presents(HeaderValue(authorization), s[v.principal.id].token.value)
    ensures v.Allow? ==> Verify(codec, s[v.principal.id].token.value, now) == Some(v.principal.id)
  {
    var h := HeaderValue(authorization);
    match ParseBearer(h)
    case None => Deny(NotAuthorized)
    case Some(token) =>
      match Verify(codec, token, now)
      case None => Deny(NotAuthorized)
      case Some(id) =>
        if id >= |s| || s[id].token != Some(token) || !Truthy(s[id].token) then Deny(NotAuthorized)
        else
          ParseBearerPresents(h, token);
          Allow(Principal(id, s[id]))
  }

  /** The converse: a header presenting the live, unexpired session token of an account is admitted as that account. */
  lemma GuardAdmits(codec: Codec, s: Store, authorization: Option<string>, now: nat, id: Id, t: string)
    requires Presents(HeaderValue(authorization), t)
    requires Verify(codec, t, now) == Some(id)
    requires HoldsSession(s, id, t)
    ensures Guard(codec, s, authorization, now) == Allow(Principal(id, s[id]))
  {
    ParseBearerPresents(HeaderValue(authorization), t);
  }

  /** A presented token that does not verify (bad signature, malformed, or expired) is refused. */
  lemma GuardRefusesUnverified(codec: Codec, s: Store, authorization: Option<string>, now: nat, t: string)
    requires Presents(HeaderValue(authorization), t)
    requires Verify(codec, t, now).None?
    ensures Guard(codec, s, authorization, now) == Deny(NotAuthorized)
  {
    PresentedFound(HeaderValue(authorization), t);
  }

  /**
   * Single live session: a header presenting a token that is not the one
   * stored for the account it names is refused.
   */
  lemma GuardRefusesStaleToken(codec: Codec, s: Store, authorization: Option<string>, now: nat, id: Id, t: string)
    requires Presents(HeaderValue(authorization), t)
    requires Verify(codec, t, now) == Some(id)
    requires !HoldsSession(s, id, t)
    ensures Guard(codec, s, authorization, now) == Deny(NotAuthorized)
  {
  }

  /** An account with no live session (token `null` or `""`) is never the one admitted. */
  lemma GuardRefusesSessionless(codec: Codec, s: Store, authorization: Option<string>, now: nat, id: Id)
    requires id < |s| && !Truthy(s[id].token)
    ensures Guard(codec, s, authorization, now).Allow? ==> Guard(codec, s, authorization, now).principal.id != id
  {
  }
}
