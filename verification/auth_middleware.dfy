/** Resolving the caller from the `Authorization` header, in the optional
    mode (never rejects) and the required mode (rejects with 401). */
module AuthMiddleware {
  import opened Wrappers
  import opened Environment
  import opened Responses

  const BearerPrefix: string := "Bearer "

  /** `req.user`: the subject and e-mail claims of a verified token. */
  datatype Identity = Identity(id: Option<string>, email: Option<string>)

  /** The token after a case-sensitive "Bearer " prefix; a missing header reads as "". */
  function GetToken(header: Option<string>): (r: Option<string>)
    ensures r.Some? <==> BearerPrefix <= header.GetOr("")
    ensures r.Some? ==> header.GetOr("") == BearerPrefix + r.value
  {
    var h := header.GetOr("");
    if BearerPrefix <= h then
      assert h == BearerPrefix + h[|BearerPrefix|..];
      Some(h[|BearerPrefix|..])
    else None
  }

  /** Prefixing a token with "Bearer " and extracting it again gives the token back. */
  lemma GetTokenRoundTrip(token: string)
    ensures GetToken(Some(BearerPrefix + token)) == Some(token)
  {
    assert (BearerPrefix + token)[|BearerPrefix|..] == token;
  }

  /** The token that is acted on: present and non-empty (a bare "Bearer " counts as none). */
  function UsableToken(header: Option<string>): Option<string> {
    match GetToken(header)
    case Some(t) => if t != "" then Some(t) else None
    case None => None
  }

  function IdentityOf(c: Claims): Identity {
    Identity(c.sub, c.email)
  }

  /** Optional mode: the verified identity, or anonymous (None) for a missing,
      empty or unverifiable token. It never produces a response. */
  function OptionalAuth(e: Env, header: Option<string>): (user: Option<Identity>)
    ensures user.Some? <==> UsableToken(header).Some? && VerifyNow(e, UsableToken(header).value).Some?
    ensures user.Some? ==> var c := VerifyNow(e, UsableToken(header).value).value;
      user.value.id == c.sub && user.value.email == c.email
  {
    match UsableToken(header)
    case None => None
    case Some(t) =>
      match VerifyNow(e, t)
      case None => None
      case Some(c) => Some(IdentityOf(c))
  }

  /** Required mode: 401 "Missing token" without a usable token, 401 "Invalid or
      expired token" when verification fails, otherwise the identity. */
  function RequireAuth(e: Env, header: Option<string>): (r: Result<Identity, Response>)
    ensures UsableToken(header).None? ==> r == Err(Response(401, Message("Missing token")))
    ensures UsableToken(header).Some? && VerifyNow(e, UsableToken(header).value).None? ==>
      r == Err(Response(401, Message("Invalid or expired token")))
    ensures r.Ok? <==> OptionalAuth(e, header).Some?
    ensures r.Ok? ==> Some(r.value) == OptionalAuth(e, header)
  {
    match UsableToken(header)
    case None => Err(Response(401, Message("Missing token")))
    case Some(t) =>
      match VerifyNow(e, t)
      case None => Err(Response(401, Message("Invalid or expired token")))
      case Some(c) => Ok(IdentityOf(c))
  }

  /** `req.user?.id` when truthy: the id the controllers scope by. */
  function CallerId(user: Option<Identity>): (r: Option<string>)
    ensures r.Some? ==> r.value != ""
  {
    if user.Some? && user.value.id.Some? && user.value.id.value != "" then user.value.id else None
  }

  /** A bare "Bearer " header is treated like a missing one in both modes. */
  lemma BareBearerIsMissing(e: Env)
    ensures OptionalAuth(e, Some(BearerPrefix)) == None
    ensures RequireAuth(e, Some(BearerPrefix)) == Err(Response(401, Message("Missing token")))
  {
    assert GetToken(Some(BearerPrefix)) == Some("");
  }
}
