/** The auth controller (controller/auth.go): Login resolves the tenant from
    its slug before any credential is looked at, and each endpoint maps the
    interactor's named errors to 400 or 401 and everything else to 500. */
module AuthController {
  import opened Common
  import opened Model
  import opened Ports
  import opened Pkg
  import opened Http
  import TN = TenantRepository
  import UR = UserRepository
  import AU = AuthUsecase

  const UserExistsMessage := "user already exists"
  const InvalidCredentialsMessage := "invalid credentials"
  const EmailNotVerifiedMessage := "email not verified"
  const InvalidTokenMessage := "invalid token"
  const TokenExpiredMessage := "token expired"
  const InvalidRefreshTokenMessage := "invalid refresh token"

  datatype RegisterRequest = RegisterRequest(email: string, password: string, name: string)
  datatype LoginRequest = LoginRequest(email: string, password: string, tenantSlug: string)
  datatype VerifyEmailRequest = VerifyEmailRequest(token: string)
  datatype RefreshTokenRequest = RefreshTokenRequest(refreshToken: string)

  function Register(req: RegisterRequest, register: RegisterInput -> Result<RegisterOutput>): (r: Reply<RegisterOutput>)
    ensures var res := register(RegisterInput(req.email, req.password, req.name));
      && (r.Respond? <==> res.Ok?)
      && (r.Respond? ==> r.body == res.value)
      && (r == HttpError(StatusBadRequest, UserExistsMessage) <==> res == Err(UserAlreadyExists))
      && (res.Err? && res.error != UserAlreadyExists ==> r == HttpError(StatusInternalServerError, Text(res.error)))
  {
    match register(RegisterInput(req.email, req.password, req.name))
    case Ok(out) => Respond(out)
    case Err(e) =>
      if e == UserAlreadyExists then HttpError(StatusBadRequest, UserExistsMessage)
      else InternalError(e)
  }

  /** The error mapping of Login once the tenant is known. */
  function LoginFailure(e: Error): (r: Reply<LoginOutput>)
    ensures r.HttpError?
    ensures r.status == StatusUnauthorized <==> e == InvalidCredentials || e == EmailNotVerified
    ensures e == InvalidCredentials ==> r.message == InvalidCredentialsMessage
    ensures e == EmailNotVerified ==> r.message == EmailNotVerifiedMessage
    ensures r.status != StatusUnauthorized ==> r == HttpError(StatusInternalServerError, Text(e))
  {
    if e == InvalidCredentials then HttpError(StatusUnauthorized, InvalidCredentialsMessage)
    else if e == EmailNotVerified then HttpError(StatusUnauthorized, EmailNotVerifiedMessage)
    else InternalError(e)
  }

  /** Login: a failed slug lookup is a 500, an unknown slug is 401 before any
      credential is checked, and otherwise the credentials are checked within
      the tenant found. */
  function Login(req: LoginRequest, findBySlug: string -> Result<Option<Tenant>>,
                 loginWithTenant: (string, LoginInput) -> Result<LoginOutput>): (r: Reply<LoginOutput>)
    ensures findBySlug(req.tenantSlug).Err? ==>
      r == HttpError(StatusInternalServerError, Text(findBySlug(req.tenantSlug).error))
    ensures findBySlug(req.tenantSlug) == Ok(None) ==> r == HttpError(StatusUnauthorized, InvalidCredentialsMessage)
    ensures findBySlug(req.tenantSlug).Ok? && findBySlug(req.tenantSlug).value.Some? ==>
      var res := loginWithTenant(findBySlug(req.tenantSlug).value.value.id, LoginInput(req.email, req.password));
      && (r.Respond? <==> res.Ok?)
      && (r.Respond? ==> r.body == res.value)
      && (res.Err? ==> r == LoginFailure(res.error))
  {
    match findBySlug(req.tenantSlug)
    case Err(e) => InternalError(e)
    case Ok(None) => HttpError(StatusUnauthorized, InvalidCredentialsMessage)
    case Ok(Some(tenant)) =>
      match loginWithTenant(tenant.id, LoginInput(req.email, req.password))
      case Ok(out) => Respond(out)
      case Err(e) => LoginFailure(e)
  }

  function VerifyEmail(req: VerifyEmailRequest, verify: VerifyEmailInput -> Result<VerifyEmailOutput>): (r: Reply<VerifyEmailOutput>)
    ensures var res := verify(VerifyEmailInput(req.token));
      && (r.Respond? <==> res.Ok?)
      && (r.Respond? ==> r.body == res.value)
      && (r == HttpError(StatusBadRequest, InvalidTokenMessage) <==> res == Err(InvalidToken))
      && (r == HttpError(StatusBadRequest, TokenExpiredMessage) <==> res == Err(TokenExpired))
      && (res.Err? && res.error != InvalidToken && res.error != TokenExpired ==>
            r == HttpError(StatusInternalServerError, Text(res.error)))
  {
    match verify(VerifyEmailInput(req.token))
    case Ok(out) => Respond(out)
    case Err(e) =>
      if e == InvalidToken then HttpError(StatusBadRequest, InvalidTokenMessage)
      else if e == TokenExpired then HttpError(StatusBadRequest, TokenExpiredMessage)
      else InternalError(e)
  }

  function RefreshToken(req: RefreshTokenRequest, refresh: RefreshTokenInput -> Result<RefreshTokenOutput>): (r: Reply<RefreshTokenOutput>)
    ensures var res := refresh(RefreshTokenInput(req.refreshToken));
      && (r.Respond? <==> res.Ok?)
      && (r.Respond? ==> r.body == res.value)
      && (r == HttpError(StatusUnauthorized, InvalidRefreshTokenMessage) <==> res == Err(InvalidToken))
      && (res.Err? && res.error != InvalidToken ==> r == HttpError(StatusInternalServerError, Text(res.error)))
  {
    match refresh(RefreshTokenInput(req.refreshToken))
    case Ok(out) => Respond(out)
    case Err(e) =>
      if e == InvalidToken then HttpError(StatusUnauthorized, InvalidRefreshTokenMessage)
      else InternalError(e)
  }

  /** Register never produces its 400: the interactor has no path that
      returns UserAlreadyExists, so every failure is a 500. */
  lemma RegisterConflictUnreachable(req: RegisterRequest, tenants: map<string, Tenant>, users: map<string, User>,
                                    tenantId: string, userId: string, token: string,
                                    passwords: PasswordService, now: int)
    ensures var r := Register(req, (inp: RegisterInput) =>
                        AU.RegisterOutcome(tenants, users, tenantId, userId, token, inp, passwords, now).result);
      && r != HttpError(StatusBadRequest, UserExistsMessage)
      && (r.HttpError? ==> r.status == StatusInternalServerError)
  {
  }

  /** Login over the tenant and user tables: a successful login is always
      into the tenant whose slug was given, for a verified user of that
      tenant with that email; and an unknown slug, an unknown email and a
      wrong password all get the same 401. */
  lemma LoginStaysInNamedTenant(req: LoginRequest, tenants: map<string, Tenant>, users: map<string, User>,
                                passwords: PasswordService, jwt: JwtService, now: int)
    requires TN.KeyedById(tenants) && UR.KeyedById(users)
    ensures var r := Login(req, (slug: string) => TN.SlugLookup(tenants, slug),
                           (tid: string, inp: LoginInput) =>
                             AU.LoginOutcome(UR.EmailLookup(users, tid, inp.email), inp.password, passwords, jwt, now));
      && (r.Respond? ==>
            && r.body.tenantId in tenants && tenants[r.body.tenantId].slug == req.tenantSlug
            && r.body.userId in users && users[r.body.userId].tenantId == r.body.tenantId
            && users[r.body.userId].email == req.email && users[r.body.userId].emailVerified
            && passwords.check(req.password, users[r.body.userId].passwordHash))
      && ((forall k :: k in tenants ==> tenants[k].slug != req.tenantSlug) ==>
            r == HttpError(StatusUnauthorized, InvalidCredentialsMessage))
  {
  }
}
