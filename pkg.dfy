/** The services of pkg/ that the core calls, kept abstract: token signing
    and validation and password hashing are functions supplied by the
    caller, so every property below holds whatever they compute. */
module Pkg {
  import opened Common

  /** The identity carried by a signed token. */
  datatype Claims = Claims(userId: string, tenantId: string, email: string, role: string)

  /** What is signed: the claims with their issue and expiry instants. */
  datatype TokenPayload = TokenPayload(claims: Claims, issuedAt: int, expiresAt: int)

  /** Lifetimes of the two kinds of token, in seconds. */
  const AccessTokenLifetime: int := 15 * 60
  const RefreshTokenLifetime: int := 7 * 24 * 60 * 60

  /** What a library call gives: a value, or an error with the library's own
      message. */
  datatype Attempt<T> = Success(value: T) | Failure(message: string)

  /** A library error as the core passes it on. */
  function Passed<T>(a: Attempt<T>): (r: Result<T>)
    ensures r.Ok? <==> a.Success?
    ensures a.Success? ==> r.value == a.value
    ensures a.Failure? ==> r.error == Internal(a.message) && Text(r.error) == a.message
  {
    match a
    case Success(v) => Ok(v)
    case Failure(m) => Err(Internal(m))
  }

  /** `sign` gives the signed string or fails; `validate(token, t)` gives the
      claims of a token whose signature it accepts and whose expiry it has
      not reached at instant `t`. */
  datatype JwtService = JwtService(
    sign: TokenPayload -> Attempt<string>,
    validate: (string, int) -> Option<Claims>)

  /** How the HS256 validator of golang-jwt v5 treats the tokens this
      service signs, with no leeway and no not-before claim: a token is
      accepted, with the claims it was signed with, at every instant strictly
      before its expiry, and refused from its expiry on. The issue instant is
      not checked. */
  ghost predicate ExpiresAsSigned(jwt: JwtService)
  {
    forall p: TokenPayload, t: int :: jwt.sign(p).Success? ==>
      jwt.validate(jwt.sign(p).value, t) == (if t < p.expiresAt then Some(p.claims) else None)
  }

  /** `hash` may fail (bcrypt refuses some inputs); `check` compares a
      plaintext with a stored digest. */
  datatype PasswordService = PasswordService(
    hash: string -> Attempt<string>,
    check: (string, string) -> bool)

  function AccessPayload(c: Claims, now: int): (p: TokenPayload)
    ensures p.claims == c && p.issuedAt == now && p.expiresAt - p.issuedAt == AccessTokenLifetime
  {
    TokenPayload(c, now, now + AccessTokenLifetime)
  }

  function RefreshPayload(c: Claims, now: int): (p: TokenPayload)
    ensures p.claims == c && p.issuedAt == now && p.expiresAt - p.issuedAt == RefreshTokenLifetime
  {
    TokenPayload(c, now, now + RefreshTokenLifetime)
  }

  /** GenerateAccessToken: a 15-minute token carrying `c`. */
  function GenerateAccessToken(jwt: JwtService, c: Claims, now: int): (r: Result<string>)
    ensures r.Ok? <==> jwt.sign(AccessPayload(c, now)).Success?
    ensures r.Ok? ==> Success(r.value) == jwt.sign(AccessPayload(c, now))
    ensures r.Err? ==> r.error == Internal(jwt.sign(AccessPayload(c, now)).message)
  {
    Passed(jwt.sign(AccessPayload(c, now)))
  }

  /** GenerateRefreshToken: a 7-day token carrying `c`. */
  function GenerateRefreshToken(jwt: JwtService, c: Claims, now: int): (r: Result<string>)
    ensures r.Ok? <==> jwt.sign(RefreshPayload(c, now)).Success?
    ensures r.Ok? ==> Success(r.value) == jwt.sign(RefreshPayload(c, now))
    ensures r.Err? ==> r.error == Internal(jwt.sign(RefreshPayload(c, now)).message)
  {
    Passed(jwt.sign(RefreshPayload(c, now)))
  }
}
