/**
 * The account collection: the `user` schema (record shape, required fields,
 * unique email, subscription enum and defaults) and the store operations the
 * service uses (`findOne({email})`, `findById`, `create`, `findByIdAndUpdate`).
 *
 * The store is a sequence indexed by id: ids are handed out in insertion
 * order and no account is ever deleted, so an id is a position.
 */
module UsersModel {
  import opened Wrappers
  import opened Libs

  /** The three subscription tiers of the schema's enum. */
  datatype Tier = Starter | Pro | Business {

    /** The string stored in the document for this tier. */
    function Name(): string {
      match this
      case Starter => "starter"
      case Pro => "pro"
      case Business => "business"
    }
  }

  /** Reads a stored subscription string back as a tier. */
  function ParseTier(s: string): (t: Option<Tier>)
    ensures t.Some? ==> t.value.Name() == s
    ensures t.None? ==> forall tier: Tier :: tier.Name() != s
  {
    if s == "starter" then Some(Starter)
    else if s == "pro" then Some(Pro)
    else if s == "business" then Some(Business)
    else None
  }

  /** Every tier name parses back to its tier, so the enum and its names are in one-to-one correspondence. */
  lemma ParseTierName(t: Tier)
    ensures ParseTier(t.Name()) == Some(t)
  {
  }

  /** The subscription values the schema's enum admits. */
  predicate IsTier(s: string) {
    ParseTier(s).Some?
  }

  /** The schema default for `subscription`. */
  const DefaultTier: Tier := Starter

  /**
   * One stored user document. `password` holds the bcrypt hash; `token` is
   * `None` (the schema default `null`) until the first login, `Some("")` after
   * a logout, and the live session token otherwise.
   */
  datatype Account = Account(email: string, password: string, subscription: string, token: Option<string>)

  type Store = seq<Account>

  /** The account a successful `User.create({email, password})` stores: schema defaults for the rest. */
  function NewAccount(email: string, passwordHash: string): Account {
    Account(email, passwordHash, DefaultTier.Name(), None)
  }

  /** The schema's per-document constraints: required (non-empty) email and password, subscription in the enum. */
  predicate WellFormed(a: Account) {
    a.email != "" && a.password != "" && IsTier(a.subscription)
  }

  /** The collection invariant: every document well-formed, no two documents with the same email. */
  ghost predicate Valid(s: Store) {
    && (forall i | 0 <= i < |s| :: WellFormed(s[i]))
    && (forall i, j | 0 <= i < j < |s| :: s[i].email != s[j].email)
  }

  /** `User.findOne({ email })`: the first account, in insertion order, with this email. */
  function FindByEmail(s: Store, email: string): (r: Option<Id>)
    ensures r.Some? ==> r.value < |s| && s[r.value].email == email
    ensures r.Some? ==> forall j | 0 <= j < r.value :: s[j].email != email
    ensures r.None? <==> forall j | 0 <= j < |s| :: s[j].email != email
  {
    if s == [] then None
    else if s[0].email == email then Some(0)
    else
      match FindByEmail(s[1..], email)
      case None => None
      case Some(k) => Some(k + 1)
  }

  /** In a valid store the account found by email is the only one with that email. */
  lemma FindByEmailUnique(s: Store, email: string, id: Id)
    requires Valid(s)
    requires id < |s| && s[id].email == email
    ensures FindByEmail(s, email) == Some(id)
  {
  }

  /** Why `User.create` can refuse a document. */
  datatype SchemaError = PasswordRequired | EmailRequired | DuplicateEmail {

    /** The message the schema declares for the failure (the unique index's for a duplicate). */
    function Text(): string {
      match this
      case PasswordRequired => "Password is required"
      case EmailRequired => "Email is required"
      case DuplicateEmail => "E11000 duplicate key error"
    }
  }

  /**
   * `User.create({ email, password })`: the schema's required checks (an empty
   * string fails `required`), then the unique index on email. On success the
   * new document, with the schema defaults, gets the next id.
   */
  function Create(s: Store, email: string, passwordHash: string): (r: Result<Store, SchemaError>)
    ensures r.Ok? <==> passwordHash != "" && email != "" && FindByEmail(s, email).None?
    ensures r.Ok? ==> |r.value| == |s| + 1 && r.value[..|s|] == s
    ensures r.Ok? ==> r.value[|s|].email == email && r.value[|s|].password == passwordHash
    ensures r.Ok? ==> r.value[|s|].subscription == "starter" && r.value[|s|].token == None
    ensures Valid(s) && r.Ok? ==> Valid(r.value)
  {
    if passwordHash == "" then Err(PasswordRequired)
    else if email == "" then Err(EmailRequired)
    else if FindByEmail(s, email).Some? then Err(DuplicateEmail)
    else
      var s' := s + [NewAccount(email, passwordHash)];
      assert s'[..|s|] == s;
      Ok(s')
  }

  /** `User.findByIdAndUpdate(id, { token })`: sets one account's token; an unknown id changes nothing. */
  function SetToken(s: Store, id: Id, token: Option<string>): (r: Store)
    ensures |r| == |s|
    ensures forall j | 0 <= j < |s| && j != id :: r[j] == s[j]
    ensures id < |s| ==> r[id].token == token
    ensures id < |s| ==> r[id].email == s[id].email && r[id].password == s[id].password
    ensures id < |s| ==> r[id].subscription == s[id].subscription
    ensures Valid(s) ==> Valid(r)
  {
    if id < |s| then s[id := s[id].(token := token)] else s
  }

  /**
   * `User.findByIdAndUpdate(id, { subscription })`: stores the string as given.
   * Mongoose does not run the enum validator on this update, so the result is
   * valid only when the string is a tier.
   */
  function SetSubscription(s: Store, id: Id, subscription: string): (r: Store)
    ensures |r| == |s|
    ensures forall j | 0 <= j < |s| && j != id :: r[j] == s[j]
    ensures id < |s| ==> r[id].subscription == subscription
    ensures id < |s| ==> r[id].email == s[id].email && r[id].password == s[id].password
    ensures id < |s| ==> r[id].token == s[id].token
    ensures Valid(s) && IsTier(subscription) ==> Valid(r)
    ensures id < |s| && !IsTier(subscription) ==> !Valid(r)
  {
    if id < |s| then s[id := s[id].(subscription := subscription)] else s
  }
}
