/** Registration and login over a user collection, and the claims of the
    session token they issue. */
module AuthController {
  import opened Wrappers
  import opened Environment
  import opened Responses
  import opened AuthMiddleware

  /** A stored user; `passwordHash` is the hash of the password, never the password. */
  datatype User = User(id: string, name: string, email: string, passwordHash: string)

  /** The user collection in insertion order. */
  type Users = seq<User>

  /** `findOne({email})`: the first user with that e-mail. */
  function FindByEmail(users: Users, email: string): (r: Option<User>)
    ensures r.Some? ==> r.value in users && r.value.email == email
    ensures r.None? <==> forall i :: 0 <= i < |users| ==> users[i].email != email
  {
    if users == [] then None
    else if users[0].email == email then Some(users[0])
    else FindByEmail(users[1..], email)
  }

  /** No two users share an e-mail or an identifier. */
  predicate UniqueUsers(users: Users) {
    forall i, j :: 0 <= i < j < |users| ==> users[i].email != users[j].email && users[i].id != users[j].id
  }

  /** The session token: subject is the user id, with the e-mail as a claim. */
  function TokenClaims(u: User): Claims {
    Claims(Some(u.id), Some(u.email))
  }

  function SignToken(e: Env, u: User): string {
    SignNow(e, TokenClaims(u))
  }

  function PublicView(u: User): PublicUser {
    PublicUser(u.id, u.name, u.email)
  }

  function SessionFor(e: Env, u: User, status: nat): Response {
    Response(status, Session(SignToken(e, u), PublicView(u)))
  }

  /** POST /auth/register after its schema: 409 "Email already in use" with the
      collection unchanged when the e-mail is taken; otherwise one new user
      (name defaulting to "", password stored only as its hash) and 201 with a
      session for it. */
  function Register(e: Env, users: Users, name: Option<string>, email: string, password: string, freshId: string)
    : (out: (Users, Response))
    ensures FindByEmail(users, email).Some? ==> out == (users, Response(409, Message("Email already in use")))
    ensures FindByEmail(users, email).None? ==>
      var u := User(freshId, name.GetOr(""), email, e.hash(password));
      out == (users + [u], SessionFor(e, u, 201))
  {
    if FindByEmail(users, email).Some? then (users, Response(409, Message("Email already in use")))
    else
      var u := User(freshId, name.GetOr(""), email, e.hash(password));
      (users + [u], SessionFor(e, u, 201))
  }

  const InvalidCredentials: Response := Response(401, Message("Invalid credentials"))

  /** POST /auth/login after its schema: 200 with a session when the e-mail is
      known and the password matches its hash; the same 401 "Invalid
      credentials" for an unknown e-mail and for a wrong password. */
  function Login(e: Env, users: Users, email: string, password: string): (resp: Response)
    ensures resp.status == 200 <==>
      FindByEmail(users, email).Some? && e.compare(password, FindByEmail(users, email).value.passwordHash)
    ensures resp.status == 200 ==> resp == SessionFor(e, FindByEmail(users, email).value, 200)
    ensures resp.status != 200 ==> resp == InvalidCredentials
  {
    match FindByEmail(users, email)
    case None => InvalidCredentials
    case Some(u) => if e.compare(password, u.passwordHash) then SessionFor(e, u, 200) else InvalidCredentials
  }

  /** Registering keeps e-mails and identifiers unique, given an unused identifier. */
  lemma RegisterKeepsUsersUnique(e: Env, users: Users, name: Option<string>, email: string, password: string, freshId: string)
    requires UniqueUsers(users)
    requires forall i :: 0 <= i < |users| ==> users[i].id != freshId
    ensures UniqueUsers(Register(e, users, name, email, password, freshId).0)
  {
  }

  /** A fresh registration adds exactly one user and the response never carries
      the password hash; the user can then log in with the same password. */
  lemma {:induction false} RegisterThenLogin(e: Env, users: Users, name: Option<string>, email: string, password: string, freshId: string)
    requires SoundHash(e)
    requires FindByEmail(users, email).None?
    ensures var (users', resp) := Register(e, users, name, email, password, freshId);
      && |users'| == |users| + 1
      && resp.status == 201
      && resp.payload.user == PublicUser(freshId, name.GetOr(""), email)
      && Login(e, users', email, password) == SessionFor(e, users'[|users|], 200)
  {
    var u := User(freshId, name.GetOr(""), email, e.hash(password));
    FindAfterAppend(users, u);
    assert e.compare(password, e.hash(password));
  }

  lemma {:induction false} FindAfterAppend(users: Users, u: User)
    requires FindByEmail(users, u.email).None?
    ensures FindByEmail(users + [u], u.email) == Some(u)
  {
    if users != [] {
      assert (users + [u])[1..] == users[1..] + [u];
      FindAfterAppend(users[1..], u);
    } else {
      assert users + [u] == [u];
    }
  }

  /** An unknown e-mail and a wrong password are answered identically. */
  lemma LoginFailuresIndistinguishable(e: Env, users: Users, unknown: string, known: string, p1: string, p2: string)
    requires FindByEmail(users, unknown).None?
    requires FindByEmail(users, known).Some? && !e.compare(p2, FindByEmail(users, known).value.passwordHash)
    ensures Login(e, users, unknown, p1) == Login(e, users, known, p2)
  {
  }

  /** The issued token, presented as "Bearer <token>" at any time `later` before
      it expires, resolves to the user's id and e-mail, so the tasks it creates
      are owned by that user. */
  lemma TokenResolvesToUser(e: Env, u: User, later: nat)
    requires SoundJwt(e)
    requires later < e.now + e.tokenLifetime
    ensures OptionalAuth(e.(now := later), Some(BearerPrefix + SignToken(e, u))) == Some(Identity(Some(u.id), Some(u.email)))
    ensures u.id != "" ==> CallerId(OptionalAuth(e.(now := later), Some(BearerPrefix + SignToken(e, u)))) == Some(u.id)
  {
    var t := SignToken(e, u);
    GetTokenRoundTrip(t);
    SignedVerifies(e, TokenClaims(u), e.now, later);
  }

  /** From `now + tokenLifetime` on, the same token identifies nobody: optional
      mode treats the caller as anonymous and required mode answers 401
      "Invalid or expired token". */
  lemma ExpiredTokenRejected(e: Env, u: User, later: nat)
    requires SoundJwt(e)
    requires later >= e.now + e.tokenLifetime
    ensures OptionalAuth(e.(now := later), Some(BearerPrefix + SignToken(e, u))) == None
    ensures RequireAuth(e.(now := later), Some(BearerPrefix + SignToken(e, u))) ==
      Err(Response(401, Message("Invalid or expired token")))
  {
    var t := SignToken(e, u);
    GetTokenRoundTrip(t);
    SignedVerifies(e, TokenClaims(u), e.now, later);
  }
}
