/**
 * The external libraries the service leans on, as values carrying stated
 * contracts instead of implementations: the password hasher (bcrypt) and the
 * session-token codec (jsonwebtoken). Each is a record of functions; its
 * `Sound()` predicate is the one promise the rest of the model relies on.
 */
module Libs {
  import opened Wrappers

  /** An account identifier, assigned by the store at creation. */
  type Id = nat

  /** The claims a session token carries: the account id and the issue time (whole seconds). */
  datatype Claims = Claims(id: Id, iat: nat)

  /** Tokens are signed with `expiresIn: "23h"`: they expire 23 hours after issue. */
  const Lifetime: nat := 23 * 60 * 60

  /** bcrypt: `hash(pw)` (salting left out) and `compare(pw, hashed)`. */
  datatype Hasher = Hasher(hash: string -> string, compare: (string, string) -> bool) {

    /** A password matches its own hash, and a hash is never the empty string. */
    ghost predicate Sound() {
      forall pw :: compare(pw, hash(pw)) && hash(pw) != ""
    }
  }

  /**
   * jsonwebtoken with the service's secret fixed: `sign` turns claims into a
   * compact token and `decode` checks the signature and reads the claims back.
   */
  datatype Codec = Codec(sign: Claims -> string, decode: string -> Option<Claims>) {

    /** Decoding a signed token gives back its claims; a signed token is a non-empty word. */
    ghost predicate Sound() {
      forall c :: decode(sign(c)) == Some(c) && sign(c) != "" && ' ' !in sign(c)
    }
  }

  /**
   * `jwt.verify(token, SECRET_KEY)`: the id claimed by a correctly signed
   * token, or None when the signature is bad or the token has expired
   * (jsonwebtoken refuses once the clock reaches `iat + Lifetime`).
   */
  function Verify(codec: Codec, token: string, now: nat): (r: Option<Id>)
    ensures r.Some? ==> exists c :: codec.decode(token) == Some(c) && c.id == r.value && now < c.iat + Lifetime
  {
    match codec.decode(token)
    case None => None
    case Some(c) => if now < c.iat + Lifetime then Some(c.id) else None
  }

  /** A token this codec signed verifies to its id exactly while it has not expired. */
  lemma VerifySigned(codec: Codec, id: Id, iat: nat, now: nat)
    requires codec.Sound()
    ensures Verify(codec, codec.sign(Claims(id, iat)), now) == Some(id) <==> now < iat + Lifetime
    ensures Verify(codec, codec.sign(Claims(id, iat)), now) != Some(id) ==> Verify(codec, codec.sign(Claims(id, iat)), now) == None
  {
  }
}
