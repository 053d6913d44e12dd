/** The JSON responses the service sends, as status plus body. */
module Http {

  /** `{ email, subscription }`: what the service reveals about an account. */
  datatype Profile = Profile(email: string, subscription: string)

  datatype Payload =
    | Message(message: string)                  // { message }
    | Registered(user: Profile)                 // { user: { email, subscription } }
    | Session(token: string, user: Profile)     // { token, user: { email, subscription } }
    | Details(profile: Profile)                 // { email, subscription }
    | NoContent                                 // a 204 carries no body

  datatype Response = Response(status: nat, payload: Payload)
}
