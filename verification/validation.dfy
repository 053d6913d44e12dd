/**
 * Request bodies and the Joi validators applied to them. The validator
 * schemas are not part of this model: each validator is a function from a
 * body to `None` (valid) or `Some(message)`, and `Sound()` names the only
 * facts about them the model relies on.
 */
module Validation {
  import opened Wrappers
  import opened UsersModel

  /** The `{ email, password }` body of signup and login. */
  datatype Credentials = Credentials(email: string, password: string)

  /** The `{ subscription }` body of the subscription update (assumed to be its only key). */
  datatype SubscriptionPatch = SubscriptionPatch(subscription: string)

  /** `signupValidation` (also used by login) and `subscriptionValidation`. */
  datatype Validators = Validators(
    signup: Credentials -> Option<string>,
    subscription: SubscriptionPatch -> Option<string>)
  {
    /** The assumptions made of the schemas: an admitted email is non-empty, an admitted subscription is a tier. */
    ghost predicate Sound() {
      && (forall c :: signup(c).None? ==> c.email != "")
      && (forall p :: subscription(p).None? ==> IsTier(p.subscription))
    }
  }
}
