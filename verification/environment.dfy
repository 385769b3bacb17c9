/** The collaborators the core calls but does not implement, injected as one
    configuration record: JWT signing and verification (secret and clock
    included), bcrypt hashing and comparison, the ISO-8601 and e-mail format
    checks of the schema library, and the document store's identifier shape.
    The clock (`now`, in whole seconds) and the token lifetime
    (`JWT_EXPIRES_IN`, "7d" by default) are part of the record, so a later
    request is the same environment with a later `now`.
    Each is an arbitrary function; the model assumes of them only what the
    `Sound*` predicates below state, and only where a lemma asks for it. */
module Environment {
  import opened Wrappers

  /** The claims a JWT carries: the subject (`sub`) and the `email` claim. */
  datatype Claims = Claims(sub: Option<string>, email: Option<string>)

  datatype Env = Env(
    isIsoDate: string -> bool,
    isEmail: string -> bool,
    isObjectId: string -> bool,
    now: nat,
    tokenLifetime: nat,
    verify: (string, nat) -> Option<Claims>,
    sign: (Claims, nat) -> string,
    hash: string -> string,
    compare: (string, string) -> bool)

  /** A token signed at `iat` is non-empty and verifies to the claims it was
      signed with at every time strictly before `iat + tokenLifetime` (the `exp`
      claim), and to nothing from then on. */
  ghost predicate SoundJwt(e: Env) {
    forall c, iat: nat, at: nat ::
      e.sign(c, iat) != "" &&
      e.verify(e.sign(c, iat), at) == if at < iat + e.tokenLifetime then Some(c) else None
  }

  /** One instance of `SoundJwt`: the token signed at `iat`, verified at `at`. */
  lemma SignedVerifies(e: Env, c: Claims, iat: nat, at: nat)
    requires SoundJwt(e)
    ensures e.sign(c, iat) != ""
    ensures e.verify(e.sign(c, iat), at) == if at < iat + e.tokenLifetime then Some(c) else None
  {
  }

  /** `jwt.sign` at the current time. */
  function SignNow(e: Env, c: Claims): string {
    e.sign(c, e.now)
  }

  /** `jwt.verify` at the current time. */
  function VerifyNow(e: Env, token: string): Option<Claims> {
    e.verify(token, e.now)
  }

  /** A password matches its own hash. */
  ghost predicate SoundHash(e: Env) {
    forall p :: e.compare(p, e.hash(p))
  }
}
