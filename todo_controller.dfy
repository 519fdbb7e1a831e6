/** The todo controller (controller/todo.go): the context guard of every
    handler, the defaults for absent optional fields, and the mapping of the
    interactor's errors to statuses. The interactor is passed in as the
    function a handler calls. */
module TodoController {
  import opened Common
  import opened Model
  import opened Ports
  import opened Http
  import TR = TodoRepository
  import TU = TodoUsecase

  const TodoNotFoundMessage := "todo not found"
  const NotOwnerMessage := "not authorized"

  /** The create body; description and visibility may be absent. */
  datatype CreateTodoRequest = CreateTodoRequest(title: string, description: Option<string>,
                                                 isPublic: Option<bool>, dueDate: Option<int>)

  /** The update body; description and visibility may be absent. */
  datatype UpdateTodoRequest = UpdateTodoRequest(title: string, description: Option<string>, completed: bool,
                                                 isPublic: Option<bool>, dueDate: Option<int>)

  function OrEmpty(o: Option<string>): string
  {
    if o.Some? then o.value else ""
  }

  function OrFalse(o: Option<bool>): bool
  {
    o.Some? && o.value
  }

  /** The interactor input built from a create body. */
  function CreateInputOf(req: CreateTodoRequest): (inp: CreateTodoInput)
    ensures inp.title == req.title && inp.dueDate == req.dueDate
    ensures req.description.None? ==> inp.description == ""
    ensures req.description.Some? ==> inp.description == req.description.value
    ensures inp.isPublic <==> req.isPublic == Some(true)
  {
    CreateTodoInput(req.title, OrEmpty(req.description), OrFalse(req.isPublic), req.dueDate)
  }

  /** The interactor input built from an update body and the path id. */
  function UpdateInputOf(id: string, req: UpdateTodoRequest): (inp: UpdateTodoInput)
    ensures inp.id == id && inp.title == req.title && inp.completed == req.completed && inp.dueDate == req.dueDate
    ensures req.description.None? ==> inp.description == ""
    ensures req.description.Some? ==> inp.description == req.description.value
    ensures inp.isPublic <==> req.isPublic == Some(true)
  {
    UpdateTodoInput(id, req.title, OrEmpty(req.description), req.completed, OrFalse(req.isPublic), req.dueDate)
  }

  /** The error mapping of UpdateTodo and DeleteTodo. */
  function TodoFailure<T>(e: Error): (r: Reply<T>)
    ensures r.HttpError?
    ensures r.status == StatusNotFound <==> e == TodoNotFound
    ensures r.status == StatusForbidden <==> e == NotTodoOwner
    ensures r.status == StatusInternalServerError <==> e != TodoNotFound && e != NotTodoOwner
    ensures e == TodoNotFound ==> r.message == TodoNotFoundMessage
    ensures e == NotTodoOwner ==> r.message == NotOwnerMessage
    ensures r.status == StatusInternalServerError ==> r.message == Text(e)
  {
    if e == TodoNotFound then HttpError(StatusNotFound, TodoNotFoundMessage)
    else if e == NotTodoOwner then HttpError(StatusForbidden, NotOwnerMessage)
    else InternalError(e)
  }

  /** A handler's answer to what the interactor returned, when only the 500
      fallback applies. */
  function Plain<T>(res: Result<T>): (r: Reply<T>)
    ensures r.Respond? <==> res.Ok?
    ensures r.Respond? ==> r.body == res.value
    ensures r.HttpError? ==> r.status == StatusInternalServerError && r.message == Text(res.error)
  {
    match res
    case Ok(v) => Respond(v)
    case Err(e) => InternalError(e)
  }

  /** A list reply is either 401 for a missing user, the listing of that
      user, or a 500. */
  function ListTodos(ctx: Context, list: string -> Result<seq<TodoOutput>>): (r: Reply<seq<TodoOutput>>)
    ensures ContextId(ctx, UserIdKey).None? <==> r == HttpError(StatusUnauthorized, UnauthorizedMessage)
    ensures r.Respond? <==> ContextId(ctx, UserIdKey).Some? && list(ctx[UserIdKey]).Ok?
    ensures r.Respond? ==> r.body == list(ctx[UserIdKey]).value
  {
    match ContextId(ctx, UserIdKey)
    case None => HttpError(StatusUnauthorized, UnauthorizedMessage)
    case Some(userId) => Plain(list(userId))
  }

  /** The public listing is asked for by the caller's tenant, whatever the
      user id in the context. */
  function ListPublicTodos(ctx: Context, listPublic: string -> Result<seq<TodoOutput>>): (r: Reply<seq<TodoOutput>>)
    ensures ContextId(ctx, TenantIdKey).None? <==> r == HttpError(StatusUnauthorized, UnauthorizedMessage)
    ensures r.Respond? <==> ContextId(ctx, TenantIdKey).Some? && listPublic(ctx[TenantIdKey]).Ok?
    ensures r.Respond? ==> r.body == listPublic(ctx[TenantIdKey]).value
  {
    match ContextId(ctx, TenantIdKey)
    case None => HttpError(StatusUnauthorized, UnauthorizedMessage)
    case Some(tenantId) => Plain(listPublic(tenantId))
  }

  /** The user id in the context plays no part in the public listing. */
  lemma PublicListingIgnoresUser(ctx: Context, listPublic: string -> Result<seq<TodoOutput>>, userId: string)
    ensures ListPublicTodos(ctx[UserIdKey := userId], listPublic) == ListPublicTodos(ctx, listPublic)
  {
  }

  /** Creating needs both the user and the tenant in the context. */
  function CreateTodo(ctx: Context, req: CreateTodoRequest,
                      create: (string, string, CreateTodoInput) -> Result<TodoOutput>): (r: Reply<TodoOutput>)
    ensures ContextId(ctx, UserIdKey).None? || ContextId(ctx, TenantIdKey).None? <==>
      r == HttpError(StatusUnauthorized, UnauthorizedMessage)
    ensures r.Respond? <==>
      && ContextId(ctx, UserIdKey).Some? && ContextId(ctx, TenantIdKey).Some?
      && create(ctx[UserIdKey], ctx[TenantIdKey], CreateInputOf(req)).Ok?
    ensures r.Respond? ==> r.body == create(ctx[UserIdKey], ctx[TenantIdKey], CreateInputOf(req)).value
  {
    match ContextId(ctx, UserIdKey)
    case None => HttpError(StatusUnauthorized, UnauthorizedMessage)
    case Some(userId) =>
      match ContextId(ctx, TenantIdKey)
      case None => HttpError(StatusUnauthorized, UnauthorizedMessage)
      case Some(tenantId) => Plain(create(userId, tenantId, CreateInputOf(req)))
  }

  function UpdateTodo(ctx: Context, id: string, req: UpdateTodoRequest,
                      update: (string, UpdateTodoInput) -> Result<TodoOutput>): (r: Reply<TodoOutput>)
    ensures ContextId(ctx, UserIdKey).None? ==> r == HttpError(StatusUnauthorized, UnauthorizedMessage)
    ensures ContextId(ctx, UserIdKey).Some? ==>
      var res := update(ctx[UserIdKey], UpdateInputOf(id, req));
      && (r.Respond? <==> res.Ok?)
      && (r.Respond? ==> r.body == res.value)
      && (res.Err? ==> r == TodoFailure(res.error))
  {
    match ContextId(ctx, UserIdKey)
    case None => HttpError(StatusUnauthorized, UnauthorizedMessage)
    case Some(userId) =>
      match update(userId, UpdateInputOf(id, req))
      case Ok(todo) => Respond(todo)
      case Err(e) => TodoFailure(e)
  }

  function DeleteTodo(ctx: Context, id: string, delete: (string, string) -> Result<()>): (r: Reply<()>)
    ensures ContextId(ctx, UserIdKey).None? ==> r == HttpError(StatusUnauthorized, UnauthorizedMessage)
    ensures ContextId(ctx, UserIdKey).Some? ==>
      var res := delete(ctx[UserIdKey], id);
      && (r.Respond? <==> res.Ok?)
      && (res.Err? ==> r == TodoFailure(res.error))
  {
    match ContextId(ctx, UserIdKey)
    case None => HttpError(StatusUnauthorized, UnauthorizedMessage)
    case Some(userId) =>
      match delete(userId, id)
      case Ok(_) => Respond(())
      case Err(e) => TodoFailure(e)
  }

  /** UpdateTodo over the todo table: 404 exactly for an unknown id, 403
      exactly for another user's todo, and a rendered todo exactly when the
      owner sends a title. */
  lemma UpdateTodoOverTable(ctx: Context, id: string, req: UpdateTodoRequest, todos: map<string, Todo>, now: int)
    requires ContextId(ctx, UserIdKey).Some?
    requires TR.KeyedById(todos)
    ensures var userId := ctx[UserIdKey];
      var r := UpdateTodo(ctx, id, req, (u: string, inp: UpdateTodoInput) => TU.UpdateOutcome(todos, u, inp, now).result);
      && (r == HttpError(StatusNotFound, TodoNotFoundMessage) <==> id !in todos)
      && (r == HttpError(StatusForbidden, NotOwnerMessage) <==> id in todos && todos[id].userId != userId)
      && (r.Respond? <==> id in todos && todos[id].userId == userId && req.title != "")
      && (r.Respond? ==> r.body.id == id && r.body.userId == userId && r.body.title == req.title
                         && r.body.completed == req.completed && (r.body.completedAt.Some? <==> req.completed))
  {
  }

  /** DeleteTodo over the todo table: 404 for an unknown id, 403 for another
      user's todo, success exactly for the owner. */
  lemma DeleteTodoOverTable(ctx: Context, id: string, todos: map<string, Todo>)
    requires ContextId(ctx, UserIdKey).Some?
    ensures var userId := ctx[UserIdKey];
      var r := DeleteTodo(ctx, id, (u: string, i: string) => TU.DeleteOutcome(todos, u, i).result);
      && (r == HttpError(StatusNotFound, TodoNotFoundMessage) <==> id !in todos)
      && (r == HttpError(StatusForbidden, NotOwnerMessage) <==> id in todos && todos[id].userId != userId)
      && (r.Respond? <==> id in todos && todos[id].userId == userId)
  {
  }
}
