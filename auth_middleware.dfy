/** `protect` and `authorize`: the bearer-token gate and the role gate that
    run in front of the protected handlers. */
module AuthMiddleware {
  import opened Common
  import opened Text
  import opened Users
  import opened Tokens

  /** A middleware either answers the request itself or passes it on with
      the authenticated claims. */
  datatype Gate = Reject(failure: Failure) | Accept(user: Payload)

  const Scheme := "Bearer "

  /** The token of an `Authorization` header, per section 2.1 of RFC 6750
      with a case-sensitive scheme: the header must start with exactly
      "Bearer ", and the token is its second space-separated field, which
      must be non-empty. */
  function BearerToken(header: Option<string>): (t: Option<string>)
    ensures t.Some? ==> header.Some? && StartsWith(header.value, Scheme) && t.value != ""
    ensures t.Some? ==> ' ' !in t.value
    ensures header.None? || !StartsWith(header.value, Scheme) ==> t.None?
  {
    if header.None? || !StartsWith(header.value, Scheme) then None
    else
      var fields := Split(header.value, ' ');
      if |fields| >= 2 && fields[1] != "" then Some(fields[1]) else None
  }

  /** A header built from the scheme and a well-formed token yields that token. */
  lemma BearerOfToken(token: string)
    requires WellFormed(token)
    ensures BearerToken(Some(Scheme + token)) == Some(token)
  {
    assert Scheme == "Bearer" + [' '];
    assert Scheme + token == "Bearer" + [' '] + token;
    SplitAfterPrefix("Bearer", token, ' ');
    SplitOfSeparatorFree(token, ' ');
    assert (Scheme + token)[..|Scheme|] == Scheme;
  }

  /** Fields after the second are ignored. */
  lemma BearerIgnoresExtraFields(token: string, rest: string)
    requires WellFormed(token)
    ensures BearerToken(Some(Scheme + token + " " + rest)) == Some(token)
  {
    var h := Scheme + token + " " + rest;
    assert h == "Bearer" + [' '] + (token + [' '] + rest);
    SplitAfterPrefix("Bearer", token + [' '] + rest, ' ');
    SplitAfterPrefix(token, rest, ' ');
    assert h[..|Scheme|] == Scheme;
  }

  /** "Bearer " with nothing after it, and a second blank right after the
      scheme, both leave the token field empty. */
  lemma BearerEmptyToken(rest: string)
    ensures BearerToken(Some(Scheme)) == None
    ensures BearerToken(Some(Scheme + " " + rest)) == None
  {
    SchemeAlone();
    SchemeThenBlank(rest);
  }

  lemma SchemeAlone()
    ensures BearerToken(Some(Scheme)) == None
  {
    assert Scheme == "Bearer" + [' '] + "";
    SplitAfterPrefix("Bearer", "", ' ');
  }

  lemma SchemeThenBlank(rest: string)
    ensures BearerToken(Some(Scheme + " " + rest)) == None
  {
    var h := Scheme + " " + rest;
    assert h == "Bearer" + [' '] + ([' '] + rest);
    assert StartsWith(h, Scheme) by {
      assert h[..|Scheme|] == Scheme;
    }
    SplitAfterPrefix("Bearer", [' '] + rest, ' ');
    SplitAfterPrefix("", rest, ' ');
    assert [] + [' '] + rest == [' '] + rest;
    assert Split(h, ' ')[1] == "";
  }

  /** The scheme is matched case-sensitively, unlike section 2.1 of RFC 7235. */
  lemma SchemeIsCaseSensitive(token: string)
    ensures BearerToken(Some("bearer " + token)) == None
    ensures BearerToken(Some("BEARER " + token)) == None
  {
    assert ("bearer " + token)[0] == 'b';
    assert ("BEARER " + token)[1] == 'E';
  }

  /** `protect`: every failure is 401 and the request goes no further;
      success passes on exactly the verified claims. These clauses follow
      the body's case split; the property worth having, that a bearer token
      the service issued gets through with its claims, is
      `ProtectAcceptsIssuedToken` below. */
  function Protect(header: Option<string>, verifyAccess: string -> Option<Payload>): (g: Gate)
    ensures g.Reject? ==> g.failure == Unauthorized
    ensures g.Accept? <==> BearerToken(header).Some? && verifyAccess(BearerToken(header).value).Some?
    ensures g.Accept? ==> g.user == verifyAccess(BearerToken(header).value).value
  {
    var token := BearerToken(header);
    if token.None? then Reject(Unauthorized)
    else
      var decoded := verifyAccess(token.value);
      if decoded.None? then Reject(Unauthorized) else Accept(decoded.value)
  }

  /** A freshly issued access token opens the gate for its own claims. */
  lemma ProtectAcceptsIssuedToken(ts: TokenService, p: Payload)
    requires RoundTrips(ts, p) && WellFormed(ts.signAccess(p))
    ensures Protect(Some(Scheme + ts.signAccess(p)), ts.verifyAccess) == Accept(p)
  {
    BearerOfToken(ts.signAccess(p));
  }

  /** `authorize(...roles)`: passes exactly the listed roles, otherwise 403. */
  function Authorize(roles: seq<Role>, user: Payload): (g: Gate)
    ensures g.Accept? <==> user.role in roles
    ensures g.Accept? ==> g.user == user
    ensures g.Reject? ==> g.failure == Forbidden
  {
    if user.role in roles then Accept(user) else Reject(Forbidden)
  }

  lemma AuthorizeNobody(user: Payload)
    ensures Authorize([], user) == Reject(Forbidden)
  {
  }
}
