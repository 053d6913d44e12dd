/**
 * The routing table and request dispatch: which endpoint runs which
 * operation, and which endpoints are preceded by `authenticateToken`.
 */
module UsersRouter {
  import opened Wrappers
  import opened UsersModel
  import opened Validation
  import opened Http
  import opened Auth
  import opened UsersController

  datatype Verb = Get | Head | Post | Patch

  datatype Op = SignupOp | LoginOp | LogoutOp | CurrentOp | UpdateOp

  /** One line of the router: verb, path, whether the guard runs first, and the handler. */
  datatype Route = Route(verb: Verb, path: string, guarded: bool, op: Op)

  const Routes: seq<Route> := [
    Route(Post, "/signup", false, SignupOp),
    Route(Post, "/login", false, LoginOp),
    Route(Get, "/logout", true, LogoutOp),
    Route(Get, "/current", true, CurrentOp),
    Route(Patch, "/", true, UpdateOp)
  ]

  /** A route declared for GET also answers HEAD (the table declares no HEAD route of its own). */
  predicate VerbMatches(declared: Verb, verb: Verb) {
    declared == verb || (declared == Get && verb == Head)
  }

  /** ASCII case folding; a JavaScript case-insensitive regular expression folds no other character onto an ASCII letter. */
  function LowerChar(c: char): char {
    if 'A' <= c <= 'Z' then (c as int + 32) as char else c
  }

  function Lower(s: string): string {
    seq(|s|, i requires 0 <= i < |s| => LowerChar(s[i]))
  }

  /**
   * The router's default path matching (`caseSensitive` and `strict` both
   * off): equal up to ASCII case, and one trailing slash may be added to, or
   * dropped from, the declared path.
   */
  predicate PathMatches(declared: string, path: string) {
    var d := Lower(declared);
    var q := Lower(path);
    q == d || (if d != [] && d[|d| - 1] == '/' then q == d[..|d| - 1] else q == d + ['/'])
  }

  predicate Matches(route: Route, verb: Verb, path: string) {
    VerbMatches(route.verb, verb) && PathMatches(route.path, path)
  }

  /** The position of the first route, in table order, that takes the request (the router tries its routes in order). */
  function Resolve(table: seq<Route>, verb: Verb, path: string): (r: Option<nat>)
    ensures r.Some? ==> r.value < |table| && Matches(table[r.value], verb, path)
    ensures r.Some? ==> forall j | 0 <= j < r.value :: !Matches(table[j], verb, path)
    ensures r.None? <==> forall k | 0 <= k < |table| :: !Matches(table[k], verb, path)
  {
    if table == [] then None
    else if Matches(table[0], verb, path) then Some(0)
    else
      match Resolve(table[1..], verb, path)
      case None => None
      case Some(k) => Some(k + 1)
  }

  /** Resolve picks exactly the first position whose route takes the request. */
  lemma {:induction false} ResolveAt(table: seq<Route>, verb: Verb, path: string, k: nat)
    requires k < |table| && Matches(table[k], verb, path)
    requires forall j | 0 <= j < k :: !Matches(table[j], verb, path)
    ensures Resolve(table, verb, path) == Some(k)
  {
    if k > 0 {
      ResolveAt(table[1..], verb, path, k - 1);
    }
  }

  /** A path with no upper-case ASCII letter is its own folding. */
  lemma LowerFixed(s: string)
    requires forall i | 0 <= i < |s| :: !('A' <= s[i] <= 'Z')
    ensures Lower(s) == s
  {
  }

  /** Folding the case of a path does not change how it resolves. */
  lemma ResolveIgnoresCase(table: seq<Route>, verb: Verb, path: string)
    ensures Resolve(table, verb, path) == Resolve(table, verb, Lower(path))
  {
    LowerFixed(Lower(path));
    var r := Resolve(table, verb, path);
    var r' := Resolve(table, verb, Lower(path));
    assert forall k | 0 <= k < |table| :: Matches(table[k], verb, path) == Matches(table[k], verb, Lower(path));
    if r.Some? && r'.Some? && r.value != r'.value {
      assert false;
    }
  }

  /** The declared paths are already lower-case. */
  lemma RoutePathsLower()
    ensures forall k | 0 <= k < |Routes| :: Lower(Routes[k].path) == Routes[k].path
  {
    forall k | 0 <= k < |Routes|
      ensures Lower(Routes[k].path) == Routes[k].path
    {
      LowerFixed(Routes[k].path);
    }
  }

  /** The router's defaults at work: a capitalised path with a trailing slash and a HEAD request both reach `/current`. */
  lemma ExpressMatchingDefaults()
    ensures Resolve(Routes, Get, "/Current/") == Some(3)
    ensures Resolve(Routes, Head, "/current") == Some(3)
  {
    RoutePathsLower();
    assert Lower("/Current/") == "/current/";
    LowerFixed("/current");
    ResolveAt(Routes, Get, "/Current/", 3);
    ResolveAt(Routes, Head, "/current", 3);
  }

  /** The table's line for an operation: every operation has exactly one, and it resolves back to it. */
  function RouteOf(op: Op): (r: Route)
    ensures r in Routes && r.op == op
    ensures forall k | 0 <= k < |Routes| && Routes[k].op == op :: Routes[k] == r
  {
    match op
    case SignupOp => Routes[0]
    case LoginOp => Routes[1]
    case LogoutOp => Routes[2]
    case CurrentOp => Routes[3]
    case UpdateOp => Routes[4]
  }

  /** Each operation's declared verb and path resolve to its own line of the table. */
  lemma RouteOfResolves(op: Op)
    ensures Resolve(Routes, RouteOf(op).verb, RouteOf(op).path).Some?
    ensures Routes[Resolve(Routes, RouteOf(op).verb, RouteOf(op).path).value] == RouteOf(op)
  {
    RoutePathsLower();
    var r := RouteOf(op);
    var k :| 0 <= k < |Routes| && Routes[k] == r;
    forall j | 0 <= j < k
      ensures !Matches(Routes[j], r.verb, r.path)
    {
      var d := Routes[j].path;
      assert Lower(d) == d && Lower(r.path) == r.path;
      if Routes[j].verb == r.verb || (Routes[j].verb == Get && r.verb == Head) {
        // the only earlier lines with the same verb differ from it in their second character
        assert d[1] != r.path[1];
        assert (d + ['/'])[1] == d[1];
      }
    }
    ResolveAt(Routes, r.verb, r.path, k);
  }

  /** A request to one of the endpoints, with its parsed body. */
  datatype Request =
    | SignupRequest(credentials: Credentials)
    | LoginRequest(credentials: Credentials)
    | LogoutRequest
    | CurrentRequest
    | UpdateRequest(patch: SubscriptionPatch)
  {
    function Op(): Op {
      match this
      case SignupRequest(_) => SignupOp
      case LoginRequest(_) => LoginOp
      case LogoutRequest => LogoutOp
      case CurrentRequest => CurrentOp
      case UpdateRequest(_) => UpdateOp
    }
  }

  /** Whether the router puts the guard in front of this request's handler. */
  predicate Guarded(req: Request) {
    RouteOf(req.Op()).guarded
  }

  /**
   * Serving one request: a guarded route runs the guard first and its handler
   * only on admission, with the resolved account; an open route runs its
   * handler directly. `authorization` is the header (None when absent) and
   * `now` the clock in seconds.
   */
  function Dispatch(env: Env, s: Store, req: Request, authorization: Option<string>, now: nat): (r: (Store, Response))
    ensures Guarded(req) <==> !req.SignupRequest? && !req.LoginRequest?
    ensures req.SignupRequest? ==> r == Signup(env, s, req.credentials)
    ensures req.LoginRequest? ==> r == Login(env, s, req.credentials, now)
    ensures Guarded(req) && Guard(env.codec, s, authorization, now).Deny? ==> r == (s, NotAuthorized)
    ensures Guarded(req) && Guard(env.codec, s, authorization, now).Allow? ==>
      var user := Guard(env.codec, s, authorization, now).principal;
      && (req.LogoutRequest? ==> r == Logout(s, user))
      && (req.CurrentRequest? ==> r == Current(s, user))
      && (req.UpdateRequest? ==> r == UpdateSubscription(env, s, user, req.patch))
    ensures Valid(s) && env.validators.Sound() ==> Valid(r.0)
  {
    if !RouteOf(req.Op()).guarded then
      match req
      case SignupRequest(body) => Signup(env, s, body)
      case LoginRequest(body) => Login(env, s, body, now)
    else
      match Guard(env.codec, s, authorization, now)
      case Deny(response) => (s, response)
      case Allow(user) =>
        match req
        case LogoutRequest => Logout(s, user)
        case CurrentRequest => Current(s, user)
        case UpdateRequest(patch) => UpdateSubscription(env, s, user, patch)
  }

  /** One request of a sequence: the request, its `Authorization` header, and the time it arrives. */
  datatype Call = Call(request: Request, authorization: Option<string>, now: nat)

  /** Serving a sequence of requests one after another; the final store. */
  function Run(env: Env, s: Store, calls: seq<Call>): Store
    decreases |calls|
  {
    if calls == [] then s
    else Run(env, Dispatch(env, s, calls[0].request, calls[0].authorization, calls[0].now).0, calls[1..])
  }

  /** The collection invariant holds after any sequence of requests. */
  lemma {:induction false} RunPreservesValid(env: Env, s: Store, calls: seq<Call>)
    requires Valid(s) && env.validators.Sound()
    ensures Valid(Run(env, s, calls))
    decreases |calls|
  {
    if calls != [] {
      var c := calls[0];
      RunPreservesValid(env, Dispatch(env, s, c.request, c.authorization, c.now).0, calls[1..]);
    }
  }
}
