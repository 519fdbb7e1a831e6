/** The domain records of the backend (domain/model). Timestamps are
    integers (seconds); a Go `*time.Time` or `*string` that may be nil is an
    `Option`. */
module Model {
  import opened Common

  datatype Tenant = Tenant(
    id: string,
    name: string,
    slug: string,
    createdAt: int,
    updatedAt: int)

  datatype UserRole = Admin | Member

  /** The string a role is stored and signed as. */
  function RoleName(role: UserRole): (s: string)
    ensures s in {"admin", "member"}
  {
    match role
    case Admin => "admin"
    case Member => "member"
  }

  datatype User = User(
    id: string,
    tenantId: string,
    email: string,
    passwordHash: string,
    name: string,
    role: UserRole,
    emailVerified: bool,
    verificationToken: Option<string>,
    verificationTokenExpiresAt: Option<int>,
    createdAt: int,
    updatedAt: int)

  datatype Todo = Todo(
    id: string,
    tenantId: string,
    userId: string,
    title: string,
    description: string,
    completed: bool,
    isPublic: bool,
    dueDate: Option<int>,
    completedAt: Option<int>,
    createdAt: int,
    updatedAt: int)
}
