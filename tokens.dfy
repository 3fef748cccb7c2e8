/**
  Session tokens (jsonwebtoken's `sign` and `verify`), treated as an abstract
  signature: a token carries its payload and the key it was signed with, and
  verification under a key reads the payload back only when the keys agree.
  Expiry is not modelled.
 */
module Tokens {
  import opened Wrappers
  import UserModel

  /** The claims the controllers sign: `{ userId, tenantId, role }`. */
  datatype Payload = Payload(userId: nat, tenantId: nat, role: UserModel.Role)

  datatype Token = Signed(payload: Payload, signingKey: string)

  /** `jwt.sign(payload, key)`. */
  function Sign(key: string, p: Payload): (t: Token)
    ensures Verify(key, t) == Some(p)
  {
    Signed(p, key)
  }

  /** `jwt.verify(token, key)`: the payload, or None when the signature does not match. */
  function Verify(key: string, t: Token): (r: Option<Payload>)
    ensures r.Some? <==> t.signingKey == key
    ensures r.Some? ==> r.value == t.payload
  {
    if t.signingKey == key then Some(t.payload) else None
  }

  /** A token signed under one key does not verify under another. */
  lemma WrongKeyRejected(key: string, other: string, p: Payload)
    requires other != key
    ensures Verify(other, Sign(key, p)).None?
  {
  }
}
