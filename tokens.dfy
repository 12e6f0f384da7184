/** Access and refresh tokens, kept abstract: the signer and verifier pair
    of each kind is a parameter of the model, and what the services rely on
    of them (that a verifier accepts what its signer produced) is stated as
    a hypothesis, `RoundTrips`, on the lemmas that need it. */
module Tokens {
  import opened Common
  import opened Users

  /** `{ userId, phone, role }`, the claims both tokens carry. */
  datatype Payload = Payload(userId: Id, phone: string, role: Role)

  datatype TokenService = TokenService(
    signAccess: Payload -> string,
    signRefresh: Payload -> string,
    verifyAccess: string -> Option<Payload>,
    verifyRefresh: string -> Option<Payload>)

  /** Verification returns the claims a token was signed with. */
  predicate RoundTrips(ts: TokenService, p: Payload) {
    ts.verifyAccess(ts.signAccess(p)) == Some(p)
    && ts.verifyRefresh(ts.signRefresh(p)) == Some(p)
  }

  /** JWTs are non-empty and contain no blank (three base64url parts). */
  predicate WellFormed(token: string) {
    token != [] && ' ' !in token
  }

  /** The claims issued for a stored user at login. */
  function PayloadOf(id: Id, u: User): (p: Payload)
    ensures p.userId == id && p.phone == u.phone && p.role == u.role
  {
    Payload(id, u.phone, u.role)
  }
}
