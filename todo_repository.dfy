/** The todos table (infrastructure/repository/todo.go) as an in-memory map
    from id to row, with the column constraints of the ORM schema: id,
    tenant_id, user_id and title must be non-empty, id is the primary key,
    tenant_id, user_id and created_at are never written after creation. */
module TodoRepository {
  import opened Common
  import opened Model

  const CreateFailed := "failed to create todo"
  const UpdateFailed := "failed to update todo"
  const DeleteFailed := "failed to delete todo"

  ghost predicate KeyedById(rows: map<string, Todo>)
  {
    forall id :: id in rows ==> rows[id].id == id
  }

  /** The two list queries: by owner, and public within a tenant. */
  datatype TodoFilter = ByUser(userId: string) | PublicInTenant(tenantId: string)

  predicate Matches(f: TodoFilter, t: Todo)
  {
    match f
    case ByUser(u) => t.userId == u
    case PublicInTenant(tid) => t.tenantId == tid && t.isPublic
  }

  /** ORDER BY created_at DESC. */
  ghost predicate NewestFirst(s: seq<Todo>)
  {
    forall i, j :: 0 <= i < j < |s| ==> s[i].createdAt >= s[j].createdAt
  }

  ghost predicate DistinctIds(s: seq<Todo>)
  {
    forall i, j :: 0 <= i < j < |s| ==> s[i].id != s[j].id
  }

  /** `s` is an answer of the query `f` on `rows`: every matching row once,
      nothing else, newest first (rows with equal created_at in any order). */
  ghost predicate IsSelection(rows: map<string, Todo>, f: TodoFilter, s: seq<Todo>)
  {
    && NewestFirst(s)
    && DistinctIds(s)
    && (forall i :: 0 <= i < |s| ==> s[i].id in rows && rows[s[i].id] == s[i] && Matches(f, s[i]))
    && (forall id :: id in rows && Matches(f, rows[id]) ==> rows[id] in s)
  }

  /** Places `t` before the first row that is not newer than it. */
  function InsertNewestFirst(s: seq<Todo>, t: Todo): (r: seq<Todo>)
    ensures |r| == |s| + 1
    ensures multiset(r) == multiset(s) + multiset{t}
  {
    if s == [] then [t]
    else if t.createdAt >= s[0].createdAt then [t] + s
    else
      assert s == [s[0]] + s[1..];
      [s[0]] + InsertNewestFirst(s[1..], t)
  }

  lemma InsertedMembers(s: seq<Todo>, t: Todo)
    ensures forall x :: x in InsertNewestFirst(s, t) <==> x in s || x == t
  {
    var r := InsertNewestFirst(s, t);
    forall x ensures x in r <==> x in s || x == t {
      assert x in r <==> x in multiset(r);
      assert x in s <==> x in multiset(s);
    }
  }

  lemma {:induction false} InsertKeepsOrder(s: seq<Todo>, t: Todo)
    requires NewestFirst(s)
    ensures NewestFirst(InsertNewestFirst(s, t))
  {
    if s != [] && t.createdAt < s[0].createdAt {
      var rest := s[1..];
      InsertKeepsOrder(rest, t);
      InsertedMembers(rest, t);
      var tail := InsertNewestFirst(rest, t);
      var r := [s[0]] + tail;
      assert r == InsertNewestFirst(s, t);
      forall j | 0 <= j < |tail| ensures s[0].createdAt >= tail[j].createdAt {
        assert tail[j] in tail;
        if tail[j] != t {
          var k :| 0 <= k < |rest| && rest[k] == tail[j];
          assert rest[k] == s[k + 1];
        }
      }
      forall i, j | 0 <= i < j < |r| ensures r[i].createdAt >= r[j].createdAt {
        if i > 0 {
          assert r[i] == tail[i - 1] && r[j] == tail[j - 1];
        } else {
          assert r[j] == tail[j - 1];
        }
      }
    }
  }

  lemma {:induction false} InsertKeepsDistinct(s: seq<Todo>, t: Todo)
    requires DistinctIds(s)
    requires forall k :: 0 <= k < |s| ==> s[k].id != t.id
    ensures DistinctIds(InsertNewestFirst(s, t))
  {
    if s != [] && t.createdAt < s[0].createdAt {
      var rest := s[1..];
      InsertKeepsDistinct(rest, t);
      InsertedMembers(rest, t);
      var tail := InsertNewestFirst(rest, t);
      var r := [s[0]] + tail;
      assert r == InsertNewestFirst(s, t);
      forall j | 0 <= j < |tail| ensures s[0].id != tail[j].id {
        assert tail[j] in tail;
        if tail[j] != t {
          var k :| 0 <= k < |rest| && rest[k] == tail[j];
          assert rest[k] == s[k + 1];
        }
      }
      forall i, j | 0 <= i < j < |r| ensures r[i].id != r[j].id {
        if i > 0 {
          assert r[i] == tail[i - 1] && r[j] == tail[j - 1];
        } else {
          assert r[j] == tail[j - 1];
        }
      }
    }
  }

  /** The two list queries, evaluated on the table. */
  method SelectNewestFirst(rows: map<string, Todo>, f: TodoFilter) returns (r: seq<Todo>)
    requires KeyedById(rows)
    ensures IsSelection(rows, f, r)
  {
    r := [];
    var pending := rows.Keys;
    while pending != {}
      invariant pending <= rows.Keys
      invariant NewestFirst(r) && DistinctIds(r)
      invariant forall i :: 0 <= i < |r| ==>
        r[i].id in rows && r[i].id !in pending && rows[r[i].id] == r[i] && Matches(f, r[i])
      invariant forall id :: id in rows && id !in pending && Matches(f, rows[id]) ==> rows[id] in r
      decreases pending
    {
      var id :| id in pending;
      if Matches(f, rows[id]) {
        InsertKeepsOrder(r, rows[id]);
        InsertKeepsDistinct(r, rows[id]);
        InsertedMembers(r, rows[id]);
        var r' := InsertNewestFirst(r, rows[id]);
        forall i | 0 <= i < |r'|
          ensures r'[i].id in rows && r'[i].id !in pending - {id} && rows[r'[i].id] == r'[i] && Matches(f, r'[i])
        {
          assert r'[i] in r';
        }
        r := r';
      }
      pending := pending - {id};
    }
  }

  /** The row Create stores for `t`: as given, with both timestamps defaulted
      to the current instant. Nullable fields are written only when set,
      which on a fresh row is the same as storing them as given. */
  function Created(t: Todo, now: int): (row: Todo)
    ensures row.(createdAt := t.createdAt, updatedAt := t.updatedAt) == t
    ensures row.createdAt == now && row.updatedAt == now
  {
    t.(createdAt := now, updatedAt := now)
  }

  /** When the insert is accepted: the schema's non-empty columns and the
      primary key. */
  predicate CanCreate(rows: map<string, Todo>, t: Todo)
  {
    t.id != "" && t.tenantId != "" && t.userId != "" && t.title != "" && t.id !in rows
  }

  /** The row Update leaves: Title, Description, Completed and IsPublic are
      set, DueDate and CompletedAt are set when present and cleared when
      absent, updated_at is refreshed, nothing else is written. */
  function Overwritten(stored: Todo, t: Todo, now: int): (row: Todo)
    ensures row.id == stored.id && row.tenantId == stored.tenantId && row.userId == stored.userId
    ensures row.createdAt == stored.createdAt && row.updatedAt == now
    ensures row.title == t.title && row.description == t.description
    ensures row.completed == t.completed && row.isPublic == t.isPublic
    ensures row.dueDate == t.dueDate && row.completedAt == t.completedAt
  {
    var row := stored.(title := t.title, description := t.description, completed := t.completed,
                       isPublic := t.isPublic, updatedAt := now);
    var row := if t.dueDate.Some? then row.(dueDate := t.dueDate) else row.(dueDate := None);
    if t.completedAt.Some? then row.(completedAt := t.completedAt) else row.(completedAt := None)
  }

  /** When UpdateOneID succeeds: the row exists and the new title is non-empty. */
  predicate CanUpdate(rows: map<string, Todo>, t: Todo)
  {
    t.id in rows && t.title != ""
  }

  class TodoRepository {
    var rows: map<string, Todo>

    ghost predicate Valid()
      reads this
    {
      KeyedById(rows)
    }

    constructor ()
      ensures Valid() && rows == map[]
    {
      rows := map[];
    }

    /** FindByID: the row with that id, or nil without an error. */
    function FindByID(id: string): (r: Option<Todo>)
      reads this
      requires Valid()
      ensures r.Some? <==> id in rows
      ensures r.Some? ==> r.value == rows[id] && r.value.id == id
    {
      if id in rows then Some(rows[id]) else None
    }

    method FindByUserID(userId: string) returns (r: seq<Todo>)
      requires Valid()
      ensures IsSelection(rows, ByUser(userId), r)
    {
      r := SelectNewestFirst(rows, ByUser(userId));
    }

    method FindPublicByTenantID(tenantId: string) returns (r: seq<Todo>)
      requires Valid()
      ensures IsSelection(rows, PublicInTenant(tenantId), r)
    {
      r := SelectNewestFirst(rows, PublicInTenant(tenantId));
    }

    method Create(t: Todo, now: int) returns (r: Result<Todo>)
      requires Valid()
      modifies this
      ensures Valid()
      ensures r.Ok? <==> CanCreate(old(rows), t)
      ensures r.Ok? ==> r.value == Created(t, now) && rows == old(rows)[t.id := r.value]
      ensures r.Err? ==> r.error == Storage(CreateFailed) && rows == old(rows)
    {
      if !CanCreate(rows, t) {
        return Err(Storage(CreateFailed));
      }
      var row := Created(t, now);
      rows := rows[t.id := row];
      r := Ok(row);
    }

    method Update(t: Todo, now: int) returns (r: Result<Todo>)
      requires Valid()
      modifies this
      ensures Valid()
      ensures r.Ok? <==> CanUpdate(old(rows), t)
      ensures r.Ok? ==> r.value == Overwritten(old(rows)[t.id], t, now) && rows == old(rows)[t.id := r.value]
      ensures r.Err? ==> r.error == Storage(UpdateFailed) && rows == old(rows)
    {
      if !CanUpdate(rows, t) {
        return Err(Storage(UpdateFailed));
      }
      var row := Overwritten(rows[t.id], t, now);
      rows := rows[t.id := row];
      r := Ok(row);
    }

    /** DeleteOneID: removes exactly the row with that id; a missing id is
        the ORM's "not found" error. */
    method Delete(id: string) returns (r: Result<()>)
      requires Valid()
      modifies this
      ensures Valid()
      ensures r.Ok? <==> id in old(rows)
      ensures r.Ok? ==> rows == old(rows) - {id}
      ensures r.Err? ==> r.error == Storage(DeleteFailed) && rows == old(rows)
    {
      if id !in rows {
        return Err(Storage(DeleteFailed));
      }
      rows := rows - {id};
      r := Ok(());
    }
  }
}
