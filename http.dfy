/** What the handlers share: the per-request context the middleware fills
    and the controllers read, and the two ways a handler answers. */
module Http {
  import opened Common

  /** The keys of the request context; `OtherKey` stands for whatever else
      the framework keeps there. */
  datatype ContextKey = UserIdKey | TenantIdKey | EmailKey | RoleKey | OtherKey(name: string)

  type Context = map<ContextKey, string>

  const StatusBadRequest := 400
  const StatusUnauthorized := 401
  const StatusForbidden := 403
  const StatusNotFound := 404
  const StatusInternalServerError := 500

  /** A handler either renders a body (through a presenter) or returns an
      echo HTTP error with a status and a message. */
  datatype Reply<T> = Respond(body: T) | HttpError(status: int, message: string)

  const UnauthorizedMessage := "unauthorized"

  /** `c.Get(key).(string)` followed by the `!ok || id == ""` guard: the
      identifier when the key is present and not empty. */
  function ContextId(ctx: Context, key: ContextKey): (r: Option<string>)
    ensures r.Some? <==> key in ctx && ctx[key] != ""
    ensures r.Some? ==> r.value == ctx[key]
  {
    if key in ctx && ctx[key] != "" then Some(ctx[key]) else None
  }

  /** The fallback of every handler: any other error is a 500 carrying the
      error's text. */
  function InternalError<T>(e: Error): Reply<T>
  {
    HttpError(StatusInternalServerError, Text(e))
  }
}
