/** The user controller (controller/user.go): the context guard, 404 for an
    unknown user, 500 for anything else. */
module UserController {
  import opened Common
  import opened Model
  import opened Ports
  import opened Pkg
  import opened Http
  import JwtMiddleware
  import UR = UserRepository
  import UU = UserUsecase

  const UserNotFoundMessage := "user not found"

  datatype UpdateUserRequest = UpdateUserRequest(name: string)

  /** The error mapping of both handlers. */
  function UserFailure(e: Error): (r: Reply<UserOutput>)
    ensures r.HttpError?
    ensures r.status == StatusNotFound <==> e == UserNotFound
    ensures e == UserNotFound ==> r.message == UserNotFoundMessage
    ensures e != UserNotFound ==> r == HttpError(StatusInternalServerError, Text(e))
  {
    if e == UserNotFound then HttpError(StatusNotFound, UserNotFoundMessage) else InternalError(e)
  }

  function GetMe(ctx: Context, getMe: string -> Result<UserOutput>): (r: Reply<UserOutput>)
    ensures ContextId(ctx, UserIdKey).None? ==> r == HttpError(StatusUnauthorized, UnauthorizedMessage)
    ensures ContextId(ctx, UserIdKey).Some? ==>
      var res := getMe(ctx[UserIdKey]);
      && (r.Respond? <==> res.Ok?)
      && (r.Respond? ==> r.body == res.value)
      && (res.Err? ==> r == UserFailure(res.error))
  {
    match ContextId(ctx, UserIdKey)
    case None => HttpError(StatusUnauthorized, UnauthorizedMessage)
    case Some(userId) =>
      match getMe(userId)
      case Ok(out) => Respond(out)
      case Err(e) => UserFailure(e)
  }

  /** UpdateMe forwards the requested name and nothing else. */
  function UpdateMe(ctx: Context, req: UpdateUserRequest, updateMe: (string, UpdateUserInput) -> Result<UserOutput>): (r: Reply<UserOutput>)
    ensures ContextId(ctx, UserIdKey).None? ==> r == HttpError(StatusUnauthorized, UnauthorizedMessage)
    ensures ContextId(ctx, UserIdKey).Some? ==>
      var res := updateMe(ctx[UserIdKey], UpdateUserInput(req.name));
      && (r.Respond? <==> res.Ok?)
      && (r.Respond? ==> r.body == res.value)
      && (res.Err? ==> r == UserFailure(res.error))
  {
    match ContextId(ctx, UserIdKey)
    case None => HttpError(StatusUnauthorized, UnauthorizedMessage)
    case Some(userId) =>
      match updateMe(userId, UpdateUserInput(req.name))
      case Ok(out) => Respond(out)
      case Err(e) => UserFailure(e)
  }

  /** A request through the middleware to GetMe: a bearer token whose user
      claim names a stored user is answered with that user's own profile; an
      empty user claim is 401; a user claim naming nobody is 404. */
  lemma AuthenticatedGetMe(header: string, ctx: Context, jwt: JwtService, now: int, users: map<string, User>)
    requires JwtMiddleware.Authenticate(header, ctx, jwt, now).Next?
    ensures var c := jwt.validate(JwtMiddleware.BearerToken(header).value, now).value;
      var r := GetMe(JwtMiddleware.Authenticate(header, ctx, jwt, now).ctx,
                     (id: string) => UU.GetMeOutcome(users, id));
      && (c.userId == "" ==> r == HttpError(StatusUnauthorized, UnauthorizedMessage))
      && (c.userId != "" && c.userId in users ==> r == Respond(UU.ToUserOutput(users[c.userId])))
      && (c.userId != "" && c.userId !in users ==> r == HttpError(StatusNotFound, UserNotFoundMessage))
  {
  }

  /** UpdateMe over the table: 404 exactly for an unknown caller, and
      otherwise the caller's profile with the new name. */
  lemma UpdateMeOverTable(ctx: Context, req: UpdateUserRequest, users: map<string, User>, now: int)
    requires ContextId(ctx, UserIdKey).Some?
    requires UR.KeyedById(users)
    ensures var r := UpdateMe(ctx, req, (id: string, inp: UpdateUserInput) => UU.UpdateMeOutcome(users, id, inp, now).result);
      && (r == HttpError(StatusNotFound, UserNotFoundMessage) <==> ctx[UserIdKey] !in users)
      && (r.Respond? ==> r.body.id == ctx[UserIdKey] && r.body.name == req.name
                         && r.body.email == users[ctx[UserIdKey]].email
                         && r.body.role == RoleName(users[ctx[UserIdKey]].role))
  {
  }
}
