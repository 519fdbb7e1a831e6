/** The todo interactor (usecase/todo.go): listing, creation, and update and
    deletion guarded first by existence and then by ownership. */
module TodoUsecase {
  import opened Common
  import opened Model
  import opened Ports
  import opened MockUuid
  import TR = TodoRepository

  /** toTodoOutput: a field copy that leaves out the tenant. */
  function ToTodoOutput(t: Todo): (o: TodoOutput)
    ensures o.id == t.id && o.userId == t.userId && o.title == t.title
    ensures o.description == t.description && o.completed == t.completed && o.isPublic == t.isPublic
    ensures o.dueDate == t.dueDate && o.completedAt == t.completedAt
    ensures o.createdAt == t.createdAt && o.updatedAt == t.updatedAt
  {
    TodoOutput(t.id, t.userId, t.title, t.description, t.completed, t.isPublic,
               t.dueDate, t.completedAt, t.createdAt, t.updatedAt)
  }

  /** The result of an operation together with the table it leaves. */
  datatype Step<T> = Step(result: Result<T>, todos: map<string, Todo>)

  /** The todo Create hands to the repository. */
  function NewTodo(id: string, userId: string, tenantId: string, inp: CreateTodoInput): (t: Todo)
    ensures t.id == id && t.userId == userId && t.tenantId == tenantId
    ensures t.title == inp.title && t.description == inp.description
    ensures t.isPublic == inp.isPublic && t.dueDate == inp.dueDate
    ensures !t.completed && t.completedAt.None?
  {
    Todo(id, tenantId, userId, inp.title, inp.description, false, inp.isPublic, inp.dueDate, None, 0, 0)
  }

  /** The completed-at transition: stamped on completion unless already
      stamped, cleared whenever the todo is not completed. */
  function NextCompletedAt(previous: Option<int>, completed: bool, now: int): (r: Option<int>)
    ensures r.Some? <==> completed
    ensures completed && previous.Some? ==> r == previous
    ensures completed && previous.None? ==> r == Some(now)
  {
    if completed && previous.None? then Some(now)
    else if !completed then None
    else previous
  }

  /** The fetched todo after the in-place edits of Update. */
  function Edited(stored: Todo, inp: UpdateTodoInput, now: int): (t: Todo)
    ensures t.id == stored.id && t.tenantId == stored.tenantId && t.userId == stored.userId
    ensures t.createdAt == stored.createdAt
    ensures t.title == inp.title && t.description == inp.description && t.completed == inp.completed
    ensures t.isPublic == inp.isPublic && t.dueDate == inp.dueDate
    ensures t.completedAt == NextCompletedAt(stored.completedAt, inp.completed, now)
  {
    stored.(title := inp.title, description := inp.description, completed := inp.completed,
            isPublic := inp.isPublic, dueDate := inp.dueDate,
            completedAt := NextCompletedAt(stored.completedAt, inp.completed, now))
  }

  /** What Create does to the table, given the identifier it draws. */
  function CreateOutcome(todos: map<string, Todo>, id: string, userId: string, tenantId: string,
                         inp: CreateTodoInput, now: int): (s: Step<TodoOutput>)
    ensures s.result.Err? ==> s.todos == todos && s.result.error == Storage(TR.CreateFailed)
    ensures s.result.Ok? ==> s.todos.Keys == todos.Keys + {id} && s.result.value.id == id
  {
    var t := NewTodo(id, userId, tenantId, inp);
    if TR.CanCreate(todos, t) then
      var row := TR.Created(t, now);
      Step(Ok(ToTodoOutput(row)), todos[id := row])
    else Step(Err(Storage(TR.CreateFailed)), todos)
  }

  /** What Update does to the table. */
  function UpdateOutcome(todos: map<string, Todo>, userId: string, inp: UpdateTodoInput, now: int): (s: Step<TodoOutput>)
    ensures s.result.Err? ==> s.todos == todos
    ensures s.result == Err(TodoNotFound) <==> inp.id !in todos
    ensures s.result.Ok? ==> s.todos.Keys == todos.Keys && todos[inp.id].userId == userId
  {
    if inp.id !in todos then Step(Err(TodoNotFound), todos)
    else if todos[inp.id].userId != userId then Step(Err(NotTodoOwner), todos)
    else
      var t := Edited(todos[inp.id], inp, now);
      if TR.CanUpdate(todos, t) then
        var row := TR.Overwritten(todos[inp.id], t, now);
        Step(Ok(ToTodoOutput(row)), todos[inp.id := row])
      else Step(Err(Storage(TR.UpdateFailed)), todos)
  }

  /** What Delete does to the table. */
  function DeleteOutcome(todos: map<string, Todo>, userId: string, todoId: string): (s: Step<()>)
    ensures s.result.Err? ==> s.todos == todos
    ensures s.result.Ok? <==> todoId in todos && todos[todoId].userId == userId
    ensures s.result.Ok? ==> s.todos.Keys == todos.Keys - {todoId}
  {
    if todoId !in todos then Step(Err(TodoNotFound), todos)
    else if todos[todoId].userId != userId then Step(Err(NotTodoOwner), todos)
    else Step(Ok(()), todos - {todoId})
  }

  /** A created todo belongs to the caller, has the drawn identifier, is not
      completed and has no completion time; a refused insert stores nothing. */
  lemma CreateStartsOpen(todos: map<string, Todo>, id: string, userId: string, tenantId: string,
                         inp: CreateTodoInput, now: int)
    ensures var s := CreateOutcome(todos, id, userId, tenantId, inp, now);
      && (s.result.Ok? <==> id !in todos && id != "" && userId != "" && tenantId != "" && inp.title != "")
      && (s.result.Ok? ==>
            && s.todos.Keys == todos.Keys + {id}
            && (forall k :: k in todos ==> s.todos[k] == todos[k])
            && s.todos[id].id == id && s.todos[id].userId == userId && s.todos[id].tenantId == tenantId
            && s.todos[id].title == inp.title && s.todos[id].description == inp.description
            && s.todos[id].isPublic == inp.isPublic && s.todos[id].dueDate == inp.dueDate
            && !s.todos[id].completed && s.todos[id].completedAt.None?
            && s.todos[id].createdAt == now
            && s.result.value == ToTodoOutput(s.todos[id]))
      && (s.result.Err? ==> s.todos == todos)
  {
  }

  /** The guard order of Update and Delete: a missing todo is reported as not
      found whoever asks, a todo of another user as not owned, and neither
      writes anything. */
  lemma GuardsComeFirst(todos: map<string, Todo>, userId: string, todoId: string, inp: UpdateTodoInput, now: int)
    ensures inp.id !in todos ==> UpdateOutcome(todos, userId, inp, now) == Step(Err(TodoNotFound), todos)
    ensures todoId !in todos ==> DeleteOutcome(todos, userId, todoId) == Step(Err(TodoNotFound), todos)
    ensures inp.id in todos && todos[inp.id].userId != userId ==>
      UpdateOutcome(todos, userId, inp, now) == Step(Err(NotTodoOwner), todos)
    ensures todoId in todos && todos[todoId].userId != userId ==>
      DeleteOutcome(todos, userId, todoId) == Step(Err(NotTodoOwner), todos)
    ensures UpdateOutcome(todos, userId, inp, now).result.Ok? ==> inp.id in todos && todos[inp.id].userId == userId
    ensures DeleteOutcome(todos, userId, todoId).result.Ok? ==> todoId in todos && todos[todoId].userId == userId
  {
  }

  /** A successful Update rewrites exactly the five editable fields and the
      completion time of that one todo, keeps the identifiers, the owner and
      the creation time, and leaves completed-at set exactly when completed. */
  lemma UpdateRewritesOnlyEditableFields(todos: map<string, Todo>, userId: string, inp: UpdateTodoInput, now: int)
    requires TR.KeyedById(todos)
    ensures var s := UpdateOutcome(todos, userId, inp, now);
      s.result.Ok? ==>
        var old_, new_ := todos[inp.id], s.todos[inp.id];
        && s.todos.Keys == todos.Keys && TR.KeyedById(s.todos)
        && (forall k :: k in todos && k != inp.id ==> s.todos[k] == todos[k])
        && new_.id == old_.id && new_.tenantId == old_.tenantId && new_.userId == old_.userId
        && new_.createdAt == old_.createdAt && new_.updatedAt == now
        && new_.title == inp.title && new_.description == inp.description
        && new_.completed == inp.completed && new_.isPublic == inp.isPublic && new_.dueDate == inp.dueDate
        && (new_.completedAt.Some? <==> new_.completed)
        && (inp.completed && old_.completedAt.Some? ==> new_.completedAt == old_.completedAt)
        && s.result.value == ToTodoOutput(new_)
    ensures var s := UpdateOutcome(todos, userId, inp, now);
      s.result.Err? ==> s.todos == todos
    ensures var s := UpdateOutcome(todos, userId, inp, now);
      s.result == Err(Storage(TR.UpdateFailed)) <==>
        inp.id in todos && todos[inp.id].userId == userId && inp.title == ""
  {
  }

  /** Completing, un-completing and completing again never leaves a stale
      completion time: the last completion stamps its own instant. */
  lemma ToggleRestamps(todos: map<string, Todo>, userId: string, inp: UpdateTodoInput,
                                          t1: int, t2: int, t3: int)
    requires TR.KeyedById(todos)
    requires inp.completed && inp.title != ""
    requires UpdateOutcome(todos, userId, inp, t1).result.Ok?
    ensures var s1 := UpdateOutcome(todos, userId, inp, t1);
      var s2 := UpdateOutcome(s1.todos, userId, inp.(completed := false), t2);
      var s3 := UpdateOutcome(s2.todos, userId, inp, t3);
      && s2.result.Ok? && s2.todos[inp.id].completedAt.None?
      && s3.result.Ok? && s3.todos[inp.id].completedAt == Some(t3)
  {
  }

  /** A successful Delete removes exactly that todo. */
  lemma DeleteRemovesOnlyThatTodo(todos: map<string, Todo>, userId: string, todoId: string)
    ensures var s := DeleteOutcome(todos, userId, todoId);
      && (s.result.Ok? ==> s.todos.Keys == todos.Keys - {todoId} && todoId in todos
                           && forall k :: k in s.todos ==> s.todos[k] == todos[k])
      && (s.result.Err? ==> s.todos == todos)
  {
  }

  /** The outputs of a selection, copied one by one, are the outputs of
      exactly the matching rows, newest first. */
  lemma OutputsCoverSelection(rows: map<string, Todo>, f: TR.TodoFilter, s: seq<Todo>, r: seq<TodoOutput>)
    requires TR.IsSelection(rows, f, s)
    requires |r| == |s| && forall i :: 0 <= i < |r| ==> r[i] == ToTodoOutput(s[i])
    ensures forall i :: 0 <= i < |r| ==> r[i].id in rows && r[i] == ToTodoOutput(rows[r[i].id]) && TR.Matches(f, rows[r[i].id])
    ensures forall i, j :: 0 <= i < j < |r| ==> r[i].createdAt >= r[j].createdAt && r[i].id != r[j].id
    ensures forall id :: id in rows && TR.Matches(f, rows[id]) ==> ToTodoOutput(rows[id]) in r
  {
    forall id | id in rows && TR.Matches(f, rows[id]) ensures ToTodoOutput(rows[id]) in r {
      var k :| 0 <= k < |s| && s[k] == rows[id];
      assert r[k] == ToTodoOutput(rows[id]);
    }
  }

  class TodoInteractor {
    const todoRepo: TR.TodoRepository
    const uuidGenerator: MockUuidGenerator

    ghost predicate Valid()
      reads this, todoRepo, uuidGenerator
    {
      todoRepo.Valid() && uuidGenerator.Valid()
    }

    constructor (todoRepo: TR.TodoRepository, uuidGenerator: MockUuidGenerator)
      requires todoRepo.Valid() && uuidGenerator.Valid()
      ensures Valid()
      ensures this.todoRepo == todoRepo && this.uuidGenerator == uuidGenerator
    {
      this.todoRepo := todoRepo;
      this.uuidGenerator := uuidGenerator;
    }

    /** List: one output per row the owner query returns, in the same order:
        every todo of the user exactly once, newest first. */
    method List(userId: string) returns (r: seq<TodoOutput>, ghost rows: seq<Todo>)
      requires Valid()
      ensures TR.IsSelection(todoRepo.rows, TR.ByUser(userId), rows)
      ensures |r| == |rows| && forall i :: 0 <= i < |r| ==> r[i] == ToTodoOutput(rows[i])
      ensures forall i :: 0 <= i < |r| ==>
        r[i].userId == userId && r[i].id in todoRepo.rows && r[i] == ToTodoOutput(todoRepo.rows[r[i].id])
      ensures forall i, j :: 0 <= i < j < |r| ==> r[i].createdAt >= r[j].createdAt && r[i].id != r[j].id
      ensures forall id :: id in todoRepo.rows && todoRepo.rows[id].userId == userId ==>
        ToTodoOutput(todoRepo.rows[id]) in r
    {
      var todos := todoRepo.FindByUserID(userId);
      rows := todos;
      r := Outputs(todos);
      OutputsCoverSelection(todoRepo.rows, TR.ByUser(userId), rows, r);
    }

    /** ListPublic: one output per row the public query returns, in the same
        order: every public todo of the tenant exactly once, newest first. */
    method ListPublic(tenantId: string) returns (r: seq<TodoOutput>, ghost rows: seq<Todo>)
      requires Valid()
      ensures TR.IsSelection(todoRepo.rows, TR.PublicInTenant(tenantId), rows)
      ensures |r| == |rows| && forall i :: 0 <= i < |r| ==> r[i] == ToTodoOutput(rows[i])
      ensures forall i :: 0 <= i < |r| ==>
        && r[i].isPublic && r[i].id in todoRepo.rows && todoRepo.rows[r[i].id].tenantId == tenantId
        && r[i] == ToTodoOutput(todoRepo.rows[r[i].id])
      ensures forall i, j :: 0 <= i < j < |r| ==> r[i].createdAt >= r[j].createdAt && r[i].id != r[j].id
      ensures forall id :: id in todoRepo.rows && todoRepo.rows[id].tenantId == tenantId && todoRepo.rows[id].isPublic ==>
        ToTodoOutput(todoRepo.rows[id]) in r
    {
      var todos := todoRepo.FindPublicByTenantID(tenantId);
      rows := todos;
      r := Outputs(todos);
      OutputsCoverSelection(todoRepo.rows, TR.PublicInTenant(tenantId), rows, r);
    }

    method Create(userId: string, tenantId: string, inp: CreateTodoInput, now: int) returns (r: Result<TodoOutput>)
      requires Valid()
      modifies todoRepo, uuidGenerator
      ensures Valid()
      ensures uuidGenerator.index == old(uuidGenerator.IndexAfter(1))
      ensures Step(r, todoRepo.rows) ==
        CreateOutcome(old(todoRepo.rows), old(uuidGenerator.Upcoming(0)), userId, tenantId, inp, now)
    {
      var id := uuidGenerator.Generate();
      var todo := NewTodo(id, userId, tenantId, inp);
      var created := todoRepo.Create(todo, now);
      if created.Err? {
        return Err(created.error);
      }
      r := Ok(ToTodoOutput(created.value));
    }

    method Update(userId: string, inp: UpdateTodoInput, now: int) returns (r: Result<TodoOutput>)
      requires Valid()
      modifies todoRepo
      ensures Valid()
      ensures Step(r, todoRepo.rows) == UpdateOutcome(old(todoRepo.rows), userId, inp, now)
    {
      var found := todoRepo.FindByID(inp.id);
      if found.None? {
        return Err(TodoNotFound);
      }
      var todo := found.value;
      if todo.userId != userId {
        return Err(NotTodoOwner);
      }
      todo := todo.(title := inp.title);
      todo := todo.(description := inp.description);
      todo := todo.(completed := inp.completed);
      todo := todo.(isPublic := inp.isPublic);
      todo := todo.(dueDate := inp.dueDate);
      if inp.completed && todo.completedAt.None? {
        todo := todo.(completedAt := Some(now));
      } else if !inp.completed {
        todo := todo.(completedAt := None);
      }
      assert todo == Edited(old(todoRepo.rows)[inp.id], inp, now);
      var updated := todoRepo.Update(todo, now);
      if updated.Err? {
        return Err(updated.error);
      }
      r := Ok(ToTodoOutput(updated.value));
    }

    method Delete(userId: string, todoId: string) returns (r: Result<()>)
      requires Valid()
      modifies todoRepo
      ensures Valid()
      ensures Step(r, todoRepo.rows) == DeleteOutcome(old(todoRepo.rows), userId, todoId)
    {
      var found := todoRepo.FindByID(todoId);
      if found.None? {
        return Err(TodoNotFound);
      }
      if found.value.userId != userId {
        return Err(NotTodoOwner);
      }
      r := todoRepo.Delete(todoId);
      assert r.Ok? && r.value == ();
    }
  }

  /** The copy loop of List and ListPublic. */
  method Outputs(todos: seq<Todo>) returns (r: seq<TodoOutput>)
    ensures |r| == |todos|
    ensures forall i :: 0 <= i < |r| ==> r[i] == ToTodoOutput(todos[i])
  {
    r := [];
    for i := 0 to |todos|
      invariant |r| == i
      invariant forall k :: 0 <= k < i ==> r[k] == ToTodoOutput(todos[k])
    {
      r := r + [ToTodoOutput(todos[i])];
    }
  }
}
