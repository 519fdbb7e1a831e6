/** The auth interactor (usecase/auth.go): registration of a tenant with its
    admin, login within a tenant, email verification and token refresh. */
module AuthUsecase {
  import opened Common
  import opened Model
  import opened Ports
  import opened Pkg
  import opened MockUuid
  import opened GoStrings
  import UR = UserRepository
  import TN = TenantRepository

  /** A verification token is valid for 24 hours (in seconds). */
  const VerificationTokenLifetime: int := 24 * 60 * 60

  const RegisteredMessage := "Registration successful. Please check your email to verify your account."
  const VerifiedMessage := "Email verified successfully"
  const SliceOutOfRange := "runtime error: slice bounds out of range"

  /** strings.Split(email, "@")[0]: the text before the first '@', or the
      whole address when it has none. */
  function LocalPart(email: string): (r: string)
    ensures '@' !in r
    ensures |r| <= |email| && r == email[..|r|]
    ensures |r| < |email| ==> email[|r|] == '@'
  {
    var parts := Split(email, '@');
    SplitPiecesHaveNoSeparator(email, '@');
    JoinSplit(email, '@');
    assert |parts| > 1 ==> email == parts[0] + ['@'] + Join(parts[1..], '@');
    parts[0]
  }

  /** The tenant slug: local part, '-', then the first 8 characters of the
      tenant id. */
  function Slug(email: string, tenantId: string): (slug: string)
    requires |tenantId| >= 8
    ensures |slug| == |LocalPart(email)| + 9
    ensures slug[..|slug| - 9] == LocalPart(email)
    ensures slug[|slug| - 9] == '-'
    ensures slug[|slug| - 8..] == tenantId[..8]
  {
    LocalPart(email) + "-" + tenantId[..8]
  }

  /** Two slugs are equal exactly when their local parts and id prefixes are:
      a slug can be read back into the two pieces it was built from. */
  lemma SlugDeterminesParts(e1: string, t1: string, e2: string, t2: string)
    requires |t1| >= 8 && |t2| >= 8
    ensures Slug(e1, t1) == Slug(e2, t2) <==> LocalPart(e1) == LocalPart(e2) && t1[..8] == t2[..8]
  {
  }

  /** The admin user Register stores, before timestamps are defaulted. */
  function NewAdmin(userId: string, tenantId: string, inp: RegisterInput, hash: string, token: string, now: int): (u: User)
    ensures u.id == userId && u.tenantId == tenantId && u.email == inp.email && u.name == inp.name
    ensures u.passwordHash == hash && u.role == Admin && !u.emailVerified
    ensures u.verificationToken == Some(token)
    ensures u.verificationTokenExpiresAt == Some(now + VerificationTokenLifetime)
  {
    User(userId, tenantId, inp.email, hash, inp.name, Admin, false,
         Some(token), Some(now + VerificationTokenLifetime), 0, 0)
  }

  datatype RegisterStep = RegisterStep(result: Result<RegisterOutput>, tenants: map<string, Tenant>, users: map<string, User>)

  /** What Register does to the two tables, given the three identifiers it
      draws (tenant, user, verification token, in that order). The tenant is
      written before the password is hashed and is not removed when a later
      step fails. */
  function RegisterOutcome(tenants: map<string, Tenant>, users: map<string, User>,
                           tenantId: string, userId: string, token: string,
                           inp: RegisterInput, passwords: PasswordService, now: int): (s: RegisterStep)
    ensures s.result.Err? ==> s.users == users
    ensures s.tenants.Keys <= tenants.Keys + {tenantId}
    ensures s.result.Ok? ==> s.tenants.Keys == tenants.Keys + {tenantId} && s.users.Keys == users.Keys + {userId}
  {
    if |tenantId| < 8 then RegisterStep(Err(Panic(SliceOutOfRange)), tenants, users)
    else
      var tenant := Tenant(tenantId, inp.name, Slug(inp.email, tenantId), 0, 0);
      if !TN.CanCreate(tenants, tenant) then RegisterStep(Err(Storage(TN.CreateFailed)), tenants, users)
      else
        var tenants' := tenants[tenantId := TN.Created(tenant, now)];
        match passwords.hash(inp.password)
        case Failure(m) => RegisterStep(Err(Internal(m)), tenants', users)
        case Success(hash) =>
          var user := NewAdmin(userId, tenantId, inp, hash, token, now);
          if !UR.CanCreate(users, user) then RegisterStep(Err(Storage(UR.CreateFailed)), tenants', users)
          else RegisterStep(Ok(RegisterOutput(userId, tenantId, inp.email, RegisteredMessage)),
                            tenants', users[userId := UR.Created(user, now)])
  }

  /** A successful registration adds exactly one tenant, named after the
      user and carrying the derived slug, and exactly one unverified admin of
      that tenant whose token expires 24 hours later. */
  lemma RegisterCreatesTenantAndAdmin(tenants: map<string, Tenant>, users: map<string, User>,
                                      tenantId: string, userId: string, token: string,
                                      inp: RegisterInput, passwords: PasswordService, now: int)
    ensures var s := RegisterOutcome(tenants, users, tenantId, userId, token, inp, passwords, now);
      s.result.Ok? ==>
        && |tenantId| >= 8
        && tenantId !in tenants && userId !in users
        && s.tenants == tenants[tenantId := Tenant(tenantId, inp.name, Slug(inp.email, tenantId), now, now)]
        && passwords.hash(inp.password).Success?
        && var u := s.users[userId];
        && s.users == users[userId := u]
        && u.id == userId && u.tenantId == tenantId && u.email == inp.email && u.name == inp.name
        && u.passwordHash == passwords.hash(inp.password).value
        && u.role == Admin && !u.emailVerified
        && u.verificationToken == Some(token)
        && u.verificationTokenExpiresAt == Some(now + VerificationTokenLifetime)
        && s.result.value == RegisterOutput(userId, tenantId, inp.email, RegisteredMessage)
  {
  }

  /** The failure paths: a short tenant id and a refused tenant leave both
      tables as they were, so no user exists without its tenant having been
      written; a failed hash or user insert leaves the tenant in place and no
      user. Register never reports UserAlreadyExists. */
  lemma RegisterFailures(tenants: map<string, Tenant>, users: map<string, User>,
                         tenantId: string, userId: string, token: string,
                         inp: RegisterInput, passwords: PasswordService, now: int)
    ensures var s := RegisterOutcome(tenants, users, tenantId, userId, token, inp, passwords, now);
      && (s.result.Err? ==> s.users == users && s.result.error != UserAlreadyExists)
      && (s.result == Err(Panic(SliceOutOfRange)) <==> |tenantId| < 8)
      && (s.result == Err(Storage(TN.CreateFailed)) ==> s.tenants == tenants)
      && ((|tenantId| >= 8 && !TN.CanCreate(tenants, Tenant(tenantId, inp.name, Slug(inp.email, tenantId), 0, 0)))
            <==> s.result == Err(Storage(TN.CreateFailed)))
      && ((|tenantId| >= 8 && TN.CanCreate(tenants, Tenant(tenantId, inp.name, Slug(inp.email, tenantId), 0, 0))
           && s.result.Err?) ==>
            s.tenants.Keys == tenants.Keys + {tenantId} && tenantId !in tenants)
      && (passwords.hash(inp.password).Failure? && |tenantId| >= 8 && s.result != Err(Storage(TN.CreateFailed)) ==>
            s.result == Err(Internal(passwords.hash(inp.password).message)))
  {
  }

  datatype TokenPair = TokenPair(access: string, refresh: string)

  /** An access token and a refresh token for the same claims. */
  function IssueTokens(jwt: JwtService, c: Claims, now: int): (r: Result<TokenPair>)
    ensures r.Ok? <==> jwt.sign(AccessPayload(c, now)).Success? && jwt.sign(RefreshPayload(c, now)).Success?
    ensures r.Ok? ==> Success(r.value.access) == jwt.sign(AccessPayload(c, now))
    ensures r.Ok? ==> Success(r.value.refresh) == jwt.sign(RefreshPayload(c, now))
    ensures jwt.sign(AccessPayload(c, now)).Failure? ==> r == Err(Internal(jwt.sign(AccessPayload(c, now)).message))
    ensures jwt.sign(AccessPayload(c, now)).Success? && jwt.sign(RefreshPayload(c, now)).Failure? ==>
      r == Err(Internal(jwt.sign(RefreshPayload(c, now)).message))
  {
    match GenerateAccessToken(jwt, c, now)
    case Err(e) => Err(e)
    case Ok(access) =>
      match GenerateRefreshToken(jwt, c, now)
      case Err(e) => Err(e)
      case Ok(refresh) => Ok(TokenPair(access, refresh))
  }

  /** The claims a user's tokens carry. */
  function ClaimsOf(u: User): (c: Claims)
    ensures c.userId == u.id && c.tenantId == u.tenantId && c.email == u.email && c.role == RoleName(u.role)
  {
    Claims(u.id, u.tenantId, u.email, RoleName(u.role))
  }

  /** The guard chain of LoginWithTenant on what FindByEmail answered: an
      unknown user and a wrong password are the same InvalidCredentials, the
      password is checked before the verification state, and a login
      succeeds exactly for a verified user with the right password. */
  function LoginOutcome(found: Result<Option<User>>, password: string, passwords: PasswordService,
                        jwt: JwtService, now: int): (r: Result<LoginOutput>)
    ensures found.Err? ==> r == Err(found.error)
    ensures found == Ok(None) ==> r == Err(InvalidCredentials)
    ensures found.Ok? && found.value.Some? && !passwords.check(password, found.value.value.passwordHash) ==>
      r == Err(InvalidCredentials)
    ensures found.Ok? ==> (r == Err(EmailNotVerified) <==>
      found.value.Some? && passwords.check(password, found.value.value.passwordHash)
      && !found.value.value.emailVerified)
    ensures r.Ok? <==>
      found.Ok? && found.value.Some? && passwords.check(password, found.value.value.passwordHash)
      && found.value.value.emailVerified && IssueTokens(jwt, ClaimsOf(found.value.value), now).Ok?
    ensures r.Ok? ==>
      var u := found.value.value;
      && Success(r.value.accessToken) == jwt.sign(AccessPayload(ClaimsOf(u), now))
      && Success(r.value.refreshToken) == jwt.sign(RefreshPayload(ClaimsOf(u), now))
      && r.value.userId == u.id && r.value.tenantId == u.tenantId && r.value.email == u.email
      && r.value.name == u.name && r.value.role == RoleName(u.role)
  {
    match found
    case Err(e) => Err(e)
    case Ok(None) => Err(InvalidCredentials)
    case Ok(Some(u)) =>
      if !passwords.check(password, u.passwordHash) then Err(InvalidCredentials)
      else if !u.emailVerified then Err(EmailNotVerified)
      else
        match IssueTokens(jwt, ClaimsOf(u), now)
        case Err(e) => Err(e)
        case Ok(pair) => Ok(LoginOutput(pair.access, pair.refresh, u.id, u.tenantId, u.email, u.name, RoleName(u.role)))
  }

  /** The user VerifyEmail writes back: verified, with token and expiry cleared. */
  function Verified(u: User): (v: User)
    ensures v.emailVerified && v.verificationToken.None? && v.verificationTokenExpiresAt.None?
    ensures v.(emailVerified := u.emailVerified, verificationToken := u.verificationToken,
               verificationTokenExpiresAt := u.verificationTokenExpiresAt) == u
  {
    u.(emailVerified := true, verificationToken := None, verificationTokenExpiresAt := None)
  }

  /** The guard chain of VerifyEmail on what FindByVerificationToken
      answered: an unknown token is invalid, an expiry strictly before now is
      expired, a missing expiry never expires. */
  function VerifyDecision(found: Result<Option<User>>, now: int): (r: Result<User>)
    ensures found.Err? ==> r == Err(found.error)
    ensures found == Ok(None) ==> r == Err(InvalidToken)
    ensures found.Ok? && found.value.Some? ==>
      var u := found.value.value;
      && (r == Err(TokenExpired) <==> u.verificationTokenExpiresAt.Some? && u.verificationTokenExpiresAt.value < now)
      && (r.Ok? <==> u.verificationTokenExpiresAt.None? || now <= u.verificationTokenExpiresAt.value)
      && (r.Ok? ==> r.value == Verified(u))
  {
    match found
    case Err(e) => Err(e)
    case Ok(None) => Err(InvalidToken)
    case Ok(Some(u)) =>
      if u.verificationTokenExpiresAt.Some? && u.verificationTokenExpiresAt.value < now then Err(TokenExpired)
      else Ok(Verified(u))
  }

  datatype VerifyStep = VerifyStep(result: Result<VerifyEmailOutput>, users: map<string, User>)

  /** What VerifyEmail does to the users table. */
  ghost function VerifyOutcome(users: map<string, User>, token: string, now: int): (s: VerifyStep)
    requires UR.KeyedById(users)
    ensures s.result.Err? ==> s.users == users
    ensures s.users.Keys == users.Keys
  {
    var d := VerifyDecision(UR.TokenLookup(users, token), now);
    if d.Err? then VerifyStep(Err(d.error), users)
    else
      var id := d.value.id;
      VerifyStep(Ok(VerifyEmailOutput(true, VerifiedMessage)), users[id := UR.Overwritten(users[id], d.value, now)])
  }

  /** A successful verification turns the one holder of the token into a
      verified user without token or expiry, changes nothing else about it or
      about any other user, and cannot be repeated: the same token is then
      unknown. */
  lemma VerifyEmailConsumesToken(users: map<string, User>, token: string, now: int, later: int)
    requires UR.KeyedById(users)
    ensures var s := VerifyOutcome(users, token, now);
      && (s.result.Err? ==> s.users == users)
      && (s.result.Ok? ==>
            exists id :: id in users && users[id].verificationToken == Some(token)
              && s.users == users[id := Verified(users[id]).(updatedAt := now)])
      && (s.result.Ok? ==> UR.KeyedById(s.users) && VerifyOutcome(s.users, token, later).result == Err(InvalidToken))
  {
  }

  /** RefreshToken: a token the validator rejects is InvalidToken; otherwise
      fresh tokens for exactly the validated claims, whatever user or
      verification state those claims name. */
  function RefreshOutcome(jwt: JwtService, inp: RefreshTokenInput, now: int): (r: Result<RefreshTokenOutput>)
    ensures jwt.validate(inp.refreshToken, now).None? ==> r == Err(InvalidToken)
    ensures jwt.validate(inp.refreshToken, now).Some? ==>
      var c := jwt.validate(inp.refreshToken, now).value;
      && (r.Ok? <==> IssueTokens(jwt, c, now).Ok?)
      && (r.Ok? ==> Success(r.value.accessToken) == jwt.sign(AccessPayload(c, now))
                    && Success(r.value.refreshToken) == jwt.sign(RefreshPayload(c, now)))
      && (r.Err? ==> IssueTokens(jwt, c, now) == Err(r.error))
  {
    match jwt.validate(inp.refreshToken, now)
    case None => Err(InvalidToken)
    case Some(c) =>
      match IssueTokens(jwt, c, now)
      case Err(e) => Err(e)
      case Ok(pair) => Ok(RefreshTokenOutput(pair.access, pair.refresh))
  }

  /** With a validator that honours the expiry it was signed with, the
      refresh token of a login made at `now` is accepted until seven days
      later, and refreshing it then yields tokens for the same user, tenant,
      email and role as the login; from the seventh day on it is refused as
      InvalidToken. */
  lemma RefreshAfterLoginKeepsIdentity(found: Result<Option<User>>, password: string, passwords: PasswordService,
                                       jwt: JwtService, now: int, later: int)
    requires ExpiresAsSigned(jwt)
    requires LoginOutcome(found, password, passwords, jwt, now).Ok?
    ensures var login := LoginOutcome(found, password, passwords, jwt, now).value;
      var c := Claims(login.userId, login.tenantId, login.email, login.role);
      var r := RefreshOutcome(jwt, RefreshTokenInput(login.refreshToken), later);
      && (later < now + RefreshTokenLifetime ==>
            && jwt.validate(login.refreshToken, later) == Some(c)
            && (r.Ok? <==> IssueTokens(jwt, c, later).Ok?)
            && (r.Ok? ==> Success(r.value.accessToken) == jwt.sign(AccessPayload(c, later))))
      && (now + RefreshTokenLifetime <= later ==>
            jwt.validate(login.refreshToken, later).None? && r == Err(InvalidToken))
  {
  }

  class AuthInteractor {
    const tenantRepo: TN.TenantRepository
    const userRepo: UR.UserRepository
    const jwt: JwtService
    const passwords: PasswordService
    const uuidGenerator: MockUuidGenerator

    ghost predicate Valid()
      reads this, tenantRepo, userRepo, uuidGenerator
    {
      tenantRepo.Valid() && userRepo.Valid() && uuidGenerator.Valid()
    }

    constructor (tenantRepo: TN.TenantRepository, userRepo: UR.UserRepository, jwt: JwtService,
                 passwords: PasswordService, uuidGenerator: MockUuidGenerator)
      requires tenantRepo.Valid() && userRepo.Valid() && uuidGenerator.Valid()
      ensures Valid()
      ensures this.tenantRepo == tenantRepo && this.userRepo == userRepo && this.uuidGenerator == uuidGenerator
      ensures this.jwt == jwt && this.passwords == passwords
    {
      this.tenantRepo := tenantRepo;
      this.userRepo := userRepo;
      this.jwt := jwt;
      this.passwords := passwords;
      this.uuidGenerator := uuidGenerator;
    }

    /** The three identifiers of a registration, drawn in the order tenant,
        user, verification token. */
    method GenerateIds() returns (tenantId: string, userId: string, verificationToken: string)
      requires Valid()
      modifies uuidGenerator
      ensures Valid()
      ensures uuidGenerator.index == old(uuidGenerator.IndexAfter(3))
      ensures tenantId == old(uuidGenerator.Upcoming(0))
      ensures userId == old(uuidGenerator.Upcoming(1))
      ensures verificationToken == old(uuidGenerator.Upcoming(2))
    {
      ghost var id1, id2 := uuidGenerator.Upcoming(1), uuidGenerator.Upcoming(2);
      tenantId := uuidGenerator.Generate();
      assert uuidGenerator.Upcoming(0) == id1 && uuidGenerator.Upcoming(1) == id2;
      userId := uuidGenerator.Generate();
      assert uuidGenerator.Upcoming(0) == id2;
      verificationToken := uuidGenerator.Generate();
    }

    method Register(inp: RegisterInput, now: int) returns (r: Result<RegisterOutput>)
      requires Valid()
      modifies uuidGenerator, tenantRepo, userRepo
      ensures Valid()
      ensures uuidGenerator.index == old(uuidGenerator.IndexAfter(3))
      ensures RegisterStep(r, tenantRepo.rows, userRepo.rows) ==
        RegisterOutcome(old(tenantRepo.rows), old(userRepo.rows),
                        old(uuidGenerator.Upcoming(0)), old(uuidGenerator.Upcoming(1)), old(uuidGenerator.Upcoming(2)),
                        inp, passwords, now)
    {
      var tenantId, userId, verificationToken := GenerateIds();

      if |tenantId| < 8 {
        return Err(Panic(SliceOutOfRange));
      }
      var slug := LocalPart(inp.email) + "-" + tenantId[..8];

      var tenant := Tenant(tenantId, inp.name, slug, 0, 0);
      var created := tenantRepo.Create(tenant, now);
      if created.Err? {
        return Err(created.error);
      }

      var hashed := passwords.hash(inp.password);
      if hashed.Failure? {
        return Err(Internal(hashed.message));
      }

      var tokenExpiry := now + VerificationTokenLifetime;
      var user := User(userId, tenantId, inp.email, hashed.value, inp.name, Admin, false,
                       Some(verificationToken), Some(tokenExpiry), 0, 0);
      var createdUser := userRepo.Create(user, now);
      if createdUser.Err? {
        return Err(createdUser.error);
      }

      // the verification email is sent here; its failure is ignored
      r := Ok(RegisterOutput(userId, tenantId, inp.email, RegisteredMessage));
    }

    /** The tenant-less Login: a placeholder that always refuses. */
    method Login(inp: LoginInput) returns (r: Result<LoginOutput>)
      requires Valid()
      ensures r == Err(InvalidCredentials)
    {
      var user := userRepo.FindByVerificationToken("");
      if user.Err? || user.value.None? {
        return Err(InvalidCredentials);
      }
      r := Err(InvalidCredentials);
    }

    method LoginWithTenant(tenantId: string, inp: LoginInput, now: int) returns (r: Result<LoginOutput>)
      requires Valid()
      ensures r == LoginOutcome(UR.EmailLookup(userRepo.rows, tenantId, inp.email), inp.password, passwords, jwt, now)
    {
      var found := userRepo.FindByEmail(tenantId, inp.email);
      if found.Err? {
        return Err(found.error);
      }
      if found.value.None? {
        return Err(InvalidCredentials);
      }
      var user := found.value.value;
      if !passwords.check(inp.password, user.passwordHash) {
        return Err(InvalidCredentials);
      }
      if !user.emailVerified {
        return Err(EmailNotVerified);
      }
      var accessToken := GenerateAccessToken(jwt, ClaimsOf(user), now);
      if accessToken.Err? {
        return Err(accessToken.error);
      }
      var refreshToken := GenerateRefreshToken(jwt, ClaimsOf(user), now);
      if refreshToken.Err? {
        return Err(refreshToken.error);
      }
      r := Ok(LoginOutput(accessToken.value, refreshToken.value, user.id, user.tenantId, user.email,
                          user.name, RoleName(user.role)));
    }

    method VerifyEmail(inp: VerifyEmailInput, now: int) returns (r: Result<VerifyEmailOutput>)
      requires Valid()
      modifies userRepo
      ensures Valid()
      ensures VerifyStep(r, userRepo.rows) == VerifyOutcome(old(userRepo.rows), inp.token, now)
    {
      var found := userRepo.FindByVerificationToken(inp.token);
      if found.Err? {
        return Err(found.error);
      }
      if found.value.None? {
        return Err(InvalidToken);
      }
      var user := found.value.value;
      if user.verificationTokenExpiresAt.Some? && user.verificationTokenExpiresAt.value < now {
        return Err(TokenExpired);
      }
      user := user.(emailVerified := true);
      user := user.(verificationToken := None);
      user := user.(verificationTokenExpiresAt := None);
      var updated := userRepo.Update(user, now);
      // the row was just read, so the error return of Update cannot happen here
      assert updated.Ok?;
      r := Ok(VerifyEmailOutput(true, VerifiedMessage));
    }

    method RefreshToken(inp: RefreshTokenInput, now: int) returns (r: Result<RefreshTokenOutput>)
      ensures r == RefreshOutcome(jwt, inp, now)
    {
      var claims := jwt.validate(inp.refreshToken, now);
      if claims.None? {
        return Err(InvalidToken);
      }
      var c := claims.value;
      var accessToken := GenerateAccessToken(jwt, c, now);
      if accessToken.Err? {
        return Err(accessToken.error);
      }
      var refreshToken := GenerateRefreshToken(jwt, c, now);
      if refreshToken.Err? {
        return Err(refreshToken.error);
      }
      r := Ok(RefreshTokenOutput(accessToken.value, refreshToken.value));
    }
  }
}
