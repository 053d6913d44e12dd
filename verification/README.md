# Account and session service, modelled in Dafny

A functional model of the account service of the `hw04-auth` Express
application: signup, login, logout, reading the current account and changing
its subscription, and the bearer-token middleware that guards the last three.

The account collection is a sequence of `Account` records indexed by id. Ids
are assigned in insertion order and accounts are never deleted. An account
holds `email`, the bcrypt `password` hash, a `subscription` string and a
`token: Option<string>`. `None` is the schema default `null`, `Some("")` is
the state after logout, and any other value is the live session token.
Every operation is a pure function from a store to `(new store, Response)`.

The libraries are values with contracts, not implementations:

- `Libs.Hasher`: bcrypt's `hash` and `compare`. `Sound()` says a password
  matches its own hash and a hash is never empty.
- `Libs.Codec`: jsonwebtoken's `sign` and `decode` over `Claims(id, iat)`.
  `Sound()` says decoding a signed token gives its claims back, and a signed
  token is a non-empty word with no spaces. `Libs.Verify` adds the 23-hour
  expiry. The clock `now` (whole seconds) is a parameter of login, of the
  guard and of dispatch.
- `Validation.Validators`: `signupValidation` (also used by login) and
  `subscriptionValidation`. Each maps a body to `None` or an error message.
  `Sound()` states the two assumptions made about the unseen schemas: an
  admitted email is non-empty, and an admitted subscription is one of the
  three tiers.

Modules follow the source files:

- `UsersModel`: the schema and store operations (`models/usersModel.js`).
- `Header` and `Auth`: the middleware (`middlewares/auth.js`).
- `UsersController`: the five handlers (`controllers/usersController.js`).
- `UsersRouter`: the route table and dispatch (`routes/api/usersRouter.js`).
- `Sessions`: properties that span several requests.

Two behaviours of the code are easy to miss, and the model keeps both as written:

- A login whose body fails validation answers 401 with the validator's message, not 400.
- The `Authorization` header is split on every space, not only the first. So
  `"Bearer  T"` (two spaces) presents an empty token and is refused.

## Model

| member | source | states |
|---|---|---|
| Libs.Verify | middlewares/auth.js:25 | a verified token names the id in its correctly signed claims and has not reached its 23-hour expiry |
| Libs.VerifySigned | controllers/usersController.js:77 | a token signed for an id verifies to that id exactly while `now < iat + 23h`, and to nothing afterwards |
| UsersModel.ParseTier | models/usersModel.js:14-16 | a string is read as a tier only when it is that tier's name; no other string is any tier's name |
| UsersModel.ParseTierName | models/usersModel.js:14-18 | every tier's name is read back as that tier |
| UsersModel.FindByEmail | controllers/usersController.js:25 | finds the first account with the email, or reports that no account has it |
| UsersModel.FindByEmailUnique | models/usersModel.js:9-13 | in a valid store, the account with a given email is the one the lookup finds |
| UsersModel.Create | models/usersModel.js:3-26 | creation succeeds iff the hash and email are non-empty (required) and the email is unused (unique); it appends exactly one account with subscription `starter` and token null; it preserves the store invariant |
| UsersModel.SetToken | controllers/usersController.js:79 | the update changes only that account's token; all other fields and accounts stay the same; the invariant is preserved |
| UsersModel.SetSubscription | controllers/usersController.js:127-129 | the update changes only that account's subscription; for an existing account the invariant is preserved exactly when the new value is a tier (a non-tier value breaks it; an unknown id changes nothing) |
| Header.Split | middlewares/auth.js:14 | splitting the header always yields at least one piece |
| Header.JoinSplit | middlewares/auth.js:14 | re-joining the pieces with single spaces gives the header back |
| Header.SplitSpaceFree | middlewares/auth.js:14 | no piece contains a space |
| Header.SplitWord | middlewares/auth.js:14 | a word without spaces splits into itself |
| Header.SplitAtSpace | middlewares/auth.js:14 | splitting at a space splits each side on its own |
| Header.SplitJoin | middlewares/auth.js:14 | splitting space-free pieces joined by spaces gives those pieces back |
| Header.ParseBearerFound | middlewares/auth.js:14-20 | a token the header check lets through is `Bearer`, one space, then that token, then the end of the header or a space |
| Header.PresentedFound | middlewares/auth.js:14-20 | a header of the shape `Bearer`, one space, a non-empty space-free token, then the end of the header or a space, yields that token |
| Header.ParseBearerPresents | middlewares/auth.js:14-20 | the header yields token t iff it is `Bearer`, one space, then t (non-empty, space-free), then the end of the header or a space |
| Header.SchemeMismatchRefused | middlewares/auth.js:17-20 | a header that does not begin with exactly `Bearer ` yields no token, and an absent header (read as "") is refused too |
| Header.DoubleSpaceRefused | middlewares/auth.js:14-17 | `Bearer` followed by two spaces yields an empty second piece and is refused, whatever follows |
| Header.ExtraPiecesIgnored | middlewares/auth.js:14 | pieces after the second are ignored |
| Auth.Guard | middlewares/auth.js:7-42 | every refusal is 401 "Not authorized"; on acceptance the resolved user is the stored account with the claimed id; the header presents exactly that account's stored token; that token is non-empty and verifies to that id; the store is only read |
| Auth.GuardAdmits | middlewares/auth.js:28-36 | a header presenting an unexpired token that is the non-empty stored token of the account it names is accepted as that account |
| Auth.GuardRefusesUnverified | middlewares/auth.js:22-41 | a presented token that fails verification (bad signature, malformed or expired) is refused with 401 "Not authorized" |
| Auth.GuardRefusesStaleToken | middlewares/auth.js:29-31 | a verified token that differs from the token stored for its account is refused |
| Auth.GuardRefusesSessionless | middlewares/auth.js:29 | an account whose token is null or "" is never accepted |
| UsersController.Signup | controllers/usersController.js:16-44 | an invalid body gives 400 with the validator's message and no change; a used email gives 409 "Email in Use" and no change; success (201) adds exactly one account with the given email, the hash of the password, `starter` and a null token; the reply shows only email and subscription; the invariant is preserved |
| UsersController.Login | controllers/usersController.js:52-91 | an invalid body gives 401 (not 400) with no change; an unknown email and a wrong password both give 401 "Email or password is wrong" with no change; success (200) sets only that account's token to `sign(id, now)` and returns that same token with email and subscription |
| UsersController.Logout | controllers/usersController.js:95-103 | sets the guarded account's token to "" and changes nothing else; the reply is 204 with no body |
| UsersController.Current | controllers/usersController.js:107-117 | a pure read: the store is unchanged and the reply is 200 with the guarded account's email and subscription |
| UsersController.UpdateSubscription | controllers/usersController.js:119-138 | an invalid body gives 400 with no change; a valid body sets only that account's subscription and returns the updated email and subscription; the invariant is preserved under the validator assumption |
| UsersRouter.Resolve | routes/api/usersRouter.js:11-21 | the result is the first line of the table that takes the request: its verb matches (a GET line also takes HEAD), and its path is equal up to ASCII case and one trailing slash; nothing is found iff no line takes it |
| UsersRouter.ResolveAt | routes/api/usersRouter.js:11-21 | the first line that takes the request is the one the router picks |
| UsersRouter.ResolveIgnoresCase | routes/api/usersRouter.js:11 | a path and its lower-cased form reach the same route |
| UsersRouter.ExpressMatchingDefaults | routes/api/usersRouter.js:11-19 | `GET /Current/` and `HEAD /current` both reach the current-account route |
| UsersRouter.RouteOf | routes/api/usersRouter.js:13-21 | every operation has exactly one line in the table |
| UsersRouter.RouteOfResolves | routes/api/usersRouter.js:13-21 | each operation's declared verb and path resolve to that operation's own line |
| UsersRouter.Dispatch | routes/api/usersRouter.js:13-21 | signup and login run without the guard, whatever the header; logout, current and update run only after the guard accepts, with the account it resolved; a refusal is 401 with the store unchanged; the invariant is preserved |
| UsersRouter.RunPreservesValid | models/usersModel.js:5-23 | after any sequence of requests, every account has a non-empty email and password and a tier subscription, and no two accounts share an email |
| Sessions.LoginFailuresIndistinguishable | controllers/usersController.js:62-72 | an unknown email and a wrong password give the identical response and leave the store unchanged |
| Sessions.LogoutIdempotent | controllers/usersController.js:95-99 | logging out twice equals logging out once |
| Sessions.SignupTwiceConflicts | controllers/usersController.js:25-40 | with sound libraries, a valid signup with an unused email succeeds, and a second signup with that email answers 409 without change |
| Sessions.NewAccountSessionless | models/usersModel.js:20-23 | a new account has no session, and after signup and any later sequence of requests with no successful login to it (logins to other emails, rejected bodies and wrong passwords are allowed) the guard accepts no request as it |
| Sessions.DispatchKeepsSessionless | routes/api/usersRouter.js:13-21 | no request other than a successful login to the account gives it a live session; a login that cannot succeed as it (another email, a rejected body, a wrong password) leaves the account untouched; the account keeps its email, password and position |
| Sessions.RunKeepsSessionless | routes/api/usersRouter.js:13-21 | an account with no session keeps none, and keeps its email and password, through any sequence of requests that contains no successful login to it; logins to other accounts and failed logins to it are allowed |
| Sessions.SignupThenLogin | controllers/usersController.js:33-87 | with sound libraries, a fresh signup followed by a login with the same credentials logs in the new account, with subscription `starter` |
| Sessions.LogoutRevokesToken | routes/api/usersRouter.js:17 | after a logout, a header presenting the token used to log out is refused by every later guarded request until a successful login to that account, even before the token expires; other users' logins and failed logins to this account in between do not change this |
| Sessions.LoginThenGuardAdmits | controllers/usersController.js:75-87 | with a sound codec, login stores the token it returns, and the guard accepts `Bearer <token>` as that account until 23 hours after issue, and refuses it from then on |
| Sessions.SecondLoginRevokesFirst | middlewares/auth.js:28-31 | after a second login to the same account, the first token is refused, unless both logins minted the same token |
| Sessions.Walkthrough | routes/api/usersRouter.js:13-19 | sign up gives 201 with `starter`; login gives 200; current with the token gives 200 with the profile; logout gives 204; current again with that token gives 401 "Not authorized" |

## Left out

- Salting and the work factor of bcrypt: `hash` is a deterministic function. Only two facts are assumed: `compare(pw, hash(pw))` holds, and `hash(pw)` is never empty.
- JWT internals: the signing secret, dotenv configuration and token encoding. Only three facts are kept: `decode(sign(c)) == Some(c)`, a signed token is non-empty and contains no space, and the 23-hour expiry.
- The Joi schemas in `validation/validation.js` are not part of this model. The validators are parameters, and the only facts assumed are the two stated in `Validators.Sound()`.
- UsersController.UpdateSubscription: the handler passes the whole `req.body` to `findByIdAndUpdate`. The model updates only `subscription`, which assumes the validator admits no other key.
- The subscription-enum invariant rests on the validator assumption. Mongoose does not run the enum validator on `findByIdAndUpdate`, and `SetSubscription` stores any string.
- Concurrency: async/await interleaving and the race between `findOne` and `create` at signup. Requests are served one at a time, and the database's unique index is modelled only as the duplicate check inside `Create`.
- The 500 catch-all paths for thrown collaborator failures (database, bcrypt, jwt signing) are not modelled. Two 500 paths that follow from the modelled state are kept: a refused `create`, and an update for an id that no longer exists.
- UsersModel.Create: for a missing email or password, the 500 message is the text the schema declares ("Email is required", "Password is required"). Mongoose wraps and combines these texts in its own format. For a duplicate email the message is a shortened form of the database server's E11000 error, which the schema does not declare. Signup cannot reach that branch, because it looks the email up first.
- `console.log` output and Express request/response plumbing.
- Requests no line of the table takes: Express's 404 reply and its automatic answer to OPTIONS. Verbs other than GET, HEAD, POST and PATCH are not modelled, because no line declares one.
- The path the router is mounted at in the application is not part of this model. Paths are relative to that mount point, with the query string removed.
- The JSON message the logout handler attaches to its 204 reply: Express drops the body of a 204.
- Request bodies are typed (`Credentials`, `SubscriptionPatch`). Missing or non-string fields are left to the validators.
- MongoDB ObjectIds are positions in the store. A malformed id in a token, which makes `findById` throw and the guard answer 401, appears only as a codec that does not decode it.
- The invariant that a non-empty stored token can always still be verified is not modelled. Tokens expire with the clock while they sit in the store. The model shows instead that login stores the token it signs, and that the guard accepts that token until it expires.
