/** Values shared by every layer: optional values, the named errors of the
    use-case layer and the wrapped errors of the layers below it. */
module Common {

  datatype Option<+T> = None | Some(value: T)

  /** Every failure an operation of the core can report. */
  datatype Error =
    // usecase/todo.go
    | TodoNotFound
    | NotTodoOwner
    | Unauthorized
    // usecase/auth.go
    | InvalidCredentials
    | EmailNotVerified
    | UserAlreadyExists
    | InvalidToken
    | TokenExpired
    // usecase/user.go
    | UserNotFound
    // a failed ORM call, wrapped by a repository with the message of the failing operation
    | Storage(message: string)
    // a failure of password hashing or of token signing
    | Internal(message: string)
    // a Go runtime panic; the server's recover middleware answers it with 500
    | Panic(message: string)

  /** The text `err.Error()` gives for each error. */
  function Text(e: Error): (r: string)
    ensures e.Storage? || e.Internal? || e.Panic? ==> r == e.message
    ensures !(e.Storage? || e.Internal? || e.Panic?) ==> r != ""
  {
    match e
    case TodoNotFound => "todo not found"
    case NotTodoOwner => "not todo owner"
    case Unauthorized => "unauthorized"
    case InvalidCredentials => "invalid credentials"
    case EmailNotVerified => "email not verified"
    case UserAlreadyExists => "user already exists"
    case InvalidToken => "invalid token"
    case TokenExpired => "token expired"
    case UserNotFound => "user not found"
    case Storage(m) => m
    case Internal(m) => m
    case Panic(m) => m
  }

  /** The `(value, error)` pair of a Go function: exactly one of the two is meaningful. */
  datatype Result<+T> = Ok(value: T) | Err(error: Error)
}
