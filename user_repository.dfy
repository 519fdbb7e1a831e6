/** The users table (infrastructure/repository/user.go) as an in-memory map
    from id to row. Only the primary key constrains an insert: the users
    schema is not part of this model. */
module UserRepository {
  import opened Common
  import opened Model
  import opened Table

  const CreateFailed := "failed to create user"
  const FindByEmailFailed := "failed to find user by email"
  const FindByTokenFailed := "failed to find user by verification token"
  const UpdateFailed := "failed to update user"

  ghost predicate KeyedById(rows: map<string, User>)
  {
    forall id :: id in rows ==> rows[id].id == id
  }

  /** WHERE tenant_id = tenantId AND email = email. */
  function EmailFilter(tenantId: string, email: string): User -> bool
  {
    (u: User) => u.tenantId == tenantId && u.email == email
  }

  /** WHERE verification_token = token: a NULL token matches nothing. */
  function TokenFilter(token: string): User -> bool
  {
    (u: User) => u.verificationToken == Some(token)
  }

  /** What FindByEmail answers on the table. */
  ghost function EmailLookup(rows: map<string, User>, tenantId: string, email: string): Result<Option<User>>
  {
    Reported(OnlyOf(rows, EmailFilter(tenantId, email)), FindByEmailFailed)
  }

  /** What FindByVerificationToken answers on the table. */
  ghost function TokenLookup(rows: map<string, User>, token: string): Result<Option<User>>
  {
    Reported(OnlyOf(rows, TokenFilter(token)), FindByTokenFailed)
  }

  /** The row Create stores: as given, with both timestamps defaulted; the
      token and its expiry are written only when set, which on a fresh row is
      the same as storing them as given. */
  function Created(u: User, now: int): (row: User)
    ensures row.(createdAt := u.createdAt, updatedAt := u.updatedAt) == u
    ensures row.createdAt == now && row.updatedAt == now
  {
    u.(createdAt := now, updatedAt := now)
  }

  predicate CanCreate(rows: map<string, User>, u: User)
  {
    u.id !in rows
  }

  /** The row Update leaves: Email, Name, Role and EmailVerified are set, the
      token and its expiry are set when present and cleared when absent,
      updated_at is refreshed; TenantID and PasswordHash are not written. */
  function Overwritten(stored: User, u: User, now: int): (row: User)
    ensures row.id == stored.id && row.tenantId == stored.tenantId
    ensures row.passwordHash == stored.passwordHash && row.createdAt == stored.createdAt
    ensures row.email == u.email && row.name == u.name && row.role == u.role
    ensures row.emailVerified == u.emailVerified && row.updatedAt == now
    ensures row.verificationToken == u.verificationToken
    ensures row.verificationTokenExpiresAt == u.verificationTokenExpiresAt
  {
    var row := stored.(email := u.email, name := u.name, role := u.role,
                       emailVerified := u.emailVerified, updatedAt := now);
    var row := if u.verificationToken.Some? then row.(verificationToken := u.verificationToken)
               else row.(verificationToken := None);
    if u.verificationTokenExpiresAt.Some? then row.(verificationTokenExpiresAt := u.verificationTokenExpiresAt)
    else row.(verificationTokenExpiresAt := None)
  }

  class UserRepository {
    var rows: map<string, User>

    ghost predicate Valid()
      reads this
    {
      KeyedById(rows)
    }

    constructor ()
      ensures Valid() && rows == map[]
    {
      rows := map[];
    }

    method Create(u: User, now: int) returns (r: Result<User>)
      requires Valid()
      modifies this
      ensures Valid()
      ensures r.Ok? <==> CanCreate(old(rows), u)
      ensures r.Ok? ==> r.value == Created(u, now) && rows == old(rows)[u.id := r.value]
      ensures r.Err? ==> r.error == Storage(CreateFailed) && rows == old(rows)
    {
      if !CanCreate(rows, u) {
        return Err(Storage(CreateFailed));
      }
      var row := Created(u, now);
      rows := rows[u.id := row];
      r := Ok(row);
    }

    /** FindByID: the row with that id, or nil without an error. */
    function FindByID(id: string): (r: Option<User>)
      reads this
      requires Valid()
      ensures r.Some? <==> id in rows
      ensures r.Some? ==> r.value == rows[id] && r.value.id == id
    {
      if id in rows then Some(rows[id]) else None
    }

    /** FindByEmail: the one user of that tenant with that email, nil when
        there is none, an error when there are several. */
    method FindByEmail(tenantId: string, email: string) returns (r: Result<Option<User>>)
      requires Valid()
      ensures r == EmailLookup(rows, tenantId, email)
      ensures r.Ok? && r.value.Some? ==> r.value.value.tenantId == tenantId && r.value.value.email == email
      ensures r.Ok? && r.value.Some? ==> r.value.value.id in rows && rows[r.value.value.id] == r.value.value
      ensures r == Ok(None) <==> forall id :: id in rows ==> !(rows[id].tenantId == tenantId && rows[id].email == email)
    {
      var l := Only(rows, EmailFilter(tenantId, email));
      r := Reported(l, FindByEmailFailed);
    }

    /** FindByVerificationToken: the one user holding that token, nil when
        there is none, an error when there are several. */
    method FindByVerificationToken(token: string) returns (r: Result<Option<User>>)
      requires Valid()
      ensures r == TokenLookup(rows, token)
      ensures r.Ok? && r.value.Some? ==> r.value.value.verificationToken == Some(token)
      ensures r.Ok? && r.value.Some? ==> r.value.value.id in rows && rows[r.value.value.id] == r.value.value
      ensures r == Ok(None) <==> forall id :: id in rows ==> rows[id].verificationToken != Some(token)
    {
      var l := Only(rows, TokenFilter(token));
      r := Reported(l, FindByTokenFailed);
    }

    method Update(u: User, now: int) returns (r: Result<User>)
      requires Valid()
      modifies this
      ensures Valid()
      ensures r.Ok? <==> u.id in old(rows)
      ensures r.Ok? ==> r.value == Overwritten(old(rows)[u.id], u, now) && rows == old(rows)[u.id := r.value]
      ensures r.Err? ==> r.error == Storage(UpdateFailed) && rows == old(rows)
    {
      if u.id !in rows {
        return Err(Storage(UpdateFailed));
      }
      var row := Overwritten(rows[u.id], u, now);
      rows := rows[u.id := row];
      r := Ok(row);
    }
  }
}
