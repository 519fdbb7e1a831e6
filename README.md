# A verified model of the good-todo-go backend core

This project models the core of a multi-tenant todo service written in Go
(the echo web framework, the ent ORM, JWT bearer tokens). The model covers
four layers.

- **Repositories.** The tenant, user and todo repositories are in-memory
  tables, `map<string, Record>` keyed by primary key, updated in place by
  the methods of a class per repository. `FindByID` is a map lookup. The
  other `Find…` queries select rows by a filter; they are loops over the
  keys, proved against a specification of the query:
  - the ORM's `.Only` behaviour: no row, one row, or a "not singular"
    error;
  - filtering plus ordering by `created_at`, newest first.
- **Interactors.** The todo, user and auth interactors are classes over
  the repositories and the mock UUID generator. Each state-changing method
  is proved equal to a pure *outcome* function of the old tables: the
  result together with the new tables. The properties are lemmas about
  those functions:
  - guard order;
  - which fields change;
  - the completed-at transition;
  - the registration records;
  - the one-shot verification token;
  - the login guard chain;
  - refresh keeping the identity.
- **Request guards.** The JWT middleware parses the bearer header,
  validates the token and puts the claims in the request context. The
  three controllers guard on the context ids, default the optional fields,
  and map the interactors' named errors to HTTP statuses. These are pure
  functions; the interactor they call is passed in as a function, and
  lemmas compose them with the interactors' outcome functions.
- **Mock UUID generator.** A cursor over a fixed list, with the fallback
  `"mock-uuid"` once the list is used up.

The clock is an integer `now` (seconds) passed to every operation that reads
it. The password service and the JWT signer and validator are function
values supplied by the caller. Every property therefore holds whatever they
compute. The validator judges a token at an instant. The only exception is
`RefreshAfterLoginKeepsIdentity`, which assumes that the validator treats
the tokens the signer produced as golang-jwt does: accepted with their
claims strictly before their expiry, and refused from then on.

Go's `tenantID[:8]` panics on a shorter id. The echo `Recover` middleware
(`backend/cmd/api/main.go:175`) turns that panic into a 500. The model
returns `Err(Panic(…))` for it.

## Model

| member | source | states |
|---|---|---|
| MockUuid.MockUuidGenerator.constructor | backend/internal/pkg/mock/uuid.go:8-10 | a new generator is at index 0 over the given list |
| MockUuid.MockUuidGenerator.Generate | backend/internal/pkg/mock/uuid.go:12-19 | while the list lasts, returns the element at the index and advances the index by one; once it is used up, returns "mock-uuid" and leaves the index; `index <= |uuids|` is kept; the upcoming ids shift by one |
| Common.Text | backend/internal/usecase/todo.go:16-18 | the text of a named error is non-empty; a wrapped error gives its own message (the named texts are those of backend/internal/usecase/auth.go:17-21 and backend/internal/usecase/user.go:13) |
| Table.OnlyOf | backend/internal/infrastructure/repository/user.go:56-70 | the `.Only` answer: no row if none matches, the single matching row with its key, "several" exactly when two distinct keys match |
| Table.Only | backend/internal/infrastructure/repository/user.go:57-62 | the scan over the keys produces exactly `OnlyOf` |
| Table.Reported | backend/internal/infrastructure/repository/user.go:63-69 | not found becomes nil without error; a single match is returned; several matches become a wrapped storage error |
| TodoRepository.InsertNewestFirst | backend/internal/infrastructure/repository/todo.go:59 | inserting into a newest-first list adds exactly that element (as a multiset) |
| TodoRepository.InsertKeepsOrder | backend/internal/infrastructure/repository/todo.go:59 | inserting keeps the list ordered by created_at, newest first |
| TodoRepository.InsertKeepsDistinct | backend/internal/infrastructure/repository/todo.go:56-69 | inserting a row whose id is new keeps the ids distinct |
| TodoRepository.SelectNewestFirst | backend/internal/infrastructure/repository/todo.go:56-88 | the query returns exactly the matching rows, each once, newest first |
| TodoRepository.TodoRepository.constructor | backend/internal/infrastructure/repository/todo.go:17-19 | a new repository holds no rows |
| TodoRepository.TodoRepository.FindByID | backend/internal/infrastructure/repository/todo.go:45-54 | nil without error for an absent id, otherwise the stored row |
| TodoRepository.TodoRepository.FindByUserID | backend/internal/infrastructure/repository/todo.go:56-70 | exactly the rows of that user, newest first |
| TodoRepository.TodoRepository.FindPublicByTenantID | backend/internal/infrastructure/repository/todo.go:72-89 | exactly the public rows of that tenant, newest first |
| TodoRepository.Created | backend/internal/infrastructure/repository/todo.go:22-37 | the stored row is the given todo, with due and completion times only when present and both timestamps defaulted to now |
| TodoRepository.TodoRepository.Create | backend/internal/infrastructure/repository/todo.go:21-43 | succeeds exactly when the id is new and the non-empty fields of the schema are non-empty; adds just that row; a failure writes nothing |
| TodoRepository.Overwritten | backend/internal/infrastructure/repository/todo.go:92-108 | title, description, completed and visibility are written; due and completion times are set when present and cleared when absent; ids, owner and creation time are kept |
| TodoRepository.TodoRepository.Update | backend/internal/infrastructure/repository/todo.go:91-114 | overwrites exactly that row when it exists and the title is non-empty, otherwise fails and writes nothing |
| TodoRepository.TodoRepository.Delete | backend/internal/infrastructure/repository/todo.go:116-122 | removes exactly the row with that id, or fails and writes nothing |
| UserRepository.Created | backend/internal/infrastructure/repository/user.go:22-37 | the stored row is the given user, with both timestamps defaulted |
| UserRepository.UserRepository.constructor | backend/internal/infrastructure/repository/user.go:17-19 | a new repository holds no rows |
| UserRepository.EmailFilter | backend/internal/infrastructure/repository/user.go:58-61 | a row matches when both its tenant id and its email are the given ones |
| UserRepository.TokenFilter | backend/internal/infrastructure/repository/user.go:74 | a row matches when it holds exactly that token; a cleared token matches nothing |
| UserRepository.UserRepository.Create | backend/internal/infrastructure/repository/user.go:21-43 | succeeds exactly for a new id, adding just that row |
| UserRepository.UserRepository.FindByID | backend/internal/infrastructure/repository/user.go:45-54 | nil without error for an absent id, otherwise the stored row |
| UserRepository.UserRepository.FindByEmail | backend/internal/infrastructure/repository/user.go:56-70 | the `.Only` answer over the rows that match both tenant and email |
| UserRepository.UserRepository.FindByVerificationToken | backend/internal/infrastructure/repository/user.go:72-83 | the `.Only` answer over the rows holding that token; a cleared token matches nothing |
| UserRepository.Overwritten | backend/internal/infrastructure/repository/user.go:86-102 | email, name, role and verification state are written; token and expiry are set or cleared; tenant, password hash and creation time are kept |
| UserRepository.UserRepository.Update | backend/internal/infrastructure/repository/user.go:85-108 | overwrites exactly that row when it exists, otherwise fails and writes nothing |
| TenantRepository.Created | backend/internal/infrastructure/repository/tenant.go:22-26 | id, name and slug are stored as given; the timestamps are defaulted |
| TenantRepository.TenantRepository.constructor | backend/internal/infrastructure/repository/tenant.go:17-19 | a new repository holds no rows |
| TenantRepository.SlugFilter | backend/internal/infrastructure/repository/tenant.go:46 | a row matches when its slug is the given one |
| TenantRepository.TenantRepository.Create | backend/internal/infrastructure/repository/tenant.go:21-31 | succeeds exactly when id, name and slug are non-empty, the id is new and the slug unused (backend/internal/ent/schema/tenant.go:19-21); a failure writes nothing |
| TenantRepository.TenantRepository.FindByID | backend/internal/infrastructure/repository/tenant.go:33-42 | nil without error for an absent id, otherwise the stored row |
| TenantRepository.TenantRepository.FindBySlug | backend/internal/infrastructure/repository/tenant.go:44-55 | the tenant with that slug, or nil; never an error, because slugs are unique |
| TodoUsecase.ToTodoOutput | backend/internal/usecase/todo.go:137-150 | a field-by-field copy without the tenant |
| TodoUsecase.NextCompletedAt | backend/internal/usecase/todo.go:106-111 | completed-at is set exactly when completed; an existing stamp is kept on re-completion; a new completion stamps now |
| TodoUsecase.Edited | backend/internal/usecase/todo.go:100-111 | the five editable fields come from the input; ids, owner and creation time are kept |
| TodoUsecase.NewTodo | backend/internal/usecase/todo.go:68-77 | the todo handed to the repository has the drawn id, the caller's user and tenant, the input's title, description, visibility and due date, and is not completed and has no completion time |
| TodoUsecase.CreateOutcome | backend/internal/usecase/todo.go:67-85 | a refused insert is the repository's storage error and writes nothing; a successful one adds exactly the drawn id and answers with it |
| TodoUsecase.UpdateOutcome | backend/internal/usecase/todo.go:87-119 | any failure writes nothing; TodoNotFound exactly for an unknown id; success only for the owner, with the same set of ids |
| TodoUsecase.DeleteOutcome | backend/internal/usecase/todo.go:121-135 | any failure writes nothing; success exactly when the caller owns the todo, and then only that id is gone |
| TodoUsecase.CreateStartsOpen | backend/internal/usecase/todo.go:67-85 | a created todo has the drawn id and the caller's user and tenant, is not completed, has no completion time, and is the only row added; a refused insert stores nothing |
| TodoUsecase.GuardsComeFirst | backend/internal/usecase/todo.go:88-98 | an unknown id is "not found" whoever asks, another user's todo is "not owner", and neither writes; this holds for Update and Delete alike |
| TodoUsecase.UpdateRewritesOnlyEditableFields | backend/internal/usecase/todo.go:87-119 | a successful update rewrites only the editable fields of that one todo; it keeps id, tenant, owner and creation time; completed-at is set iff completed |
| TodoUsecase.ToggleRestamps | backend/internal/usecase/todo.go:106-111 | complete, un-complete, complete again: the un-completion clears the stamp and the last completion stamps its own time |
| TodoUsecase.DeleteRemovesOnlyThatTodo | backend/internal/usecase/todo.go:121-135 | a successful delete removes that id only; a failed one writes nothing |
| TodoUsecase.TodoInteractor.List | backend/internal/usecase/todo.go:41-52 | one output per row of the user's newest-first selection, in the same order, by field copy: every todo of the user exactly once, nothing else, newest first |
| TodoUsecase.TodoInteractor.ListPublic | backend/internal/usecase/todo.go:54-65 | the same for the tenant's public todos: every public todo of that tenant exactly once, newest first |
| TodoUsecase.TodoInteractor.Create | backend/internal/usecase/todo.go:67-85 | draws one id and leaves the table and result given by the create outcome |
| TodoUsecase.TodoInteractor.Update | backend/internal/usecase/todo.go:87-119 | the in-place edits followed by the repository write give the update outcome |
| TodoUsecase.TodoInteractor.Delete | backend/internal/usecase/todo.go:121-135 | gives the delete outcome |
| TodoUsecase.OutputsCoverSelection | backend/internal/usecase/todo.go:47-50 | the copied outputs of a query answer are the outputs of exactly the matching rows, each once, newest first |
| TodoUsecase.Outputs | backend/internal/usecase/todo.go:47-50 | the output slice has one copied element per input row, in order |
| TodoUsecase.TodoInteractor.constructor | backend/internal/usecase/todo.go:34-39 | the interactor holds the repository and the generator it is given |
| UserUsecase.ToUserOutput | backend/internal/usecase/user.go:38-47 | id, tenant, email, name, role, verification state and timestamps are copied |
| UserUsecase.GetMeOutcome | backend/internal/usecase/user.go:29-48 | the caller's profile exactly when the id is stored, otherwise UserNotFound |
| UserUsecase.UpdateMeOutcome | backend/internal/usecase/user.go:50-76 | UserNotFound exactly for an unknown caller, writing nothing; otherwise the same set of users and an answer carrying the new name |
| UserUsecase.UpdateMeChangesOnlyName | backend/internal/usecase/user.go:50-76 | renames the caller and changes nothing else but updated-at; the answer is what GetMe would now return; an unknown caller gets UserNotFound and nothing is written |
| UserUsecase.UserInteractor.constructor | backend/internal/usecase/user.go:25-27 | the interactor holds the repository it is given |
| UserUsecase.UserInteractor.GetMe | backend/internal/usecase/user.go:29-48 | equals the GetMe outcome and writes nothing |
| UserUsecase.UserInteractor.UpdateMe | backend/internal/usecase/user.go:50-76 | equals the UpdateMe outcome |
| AuthUsecase.LocalPart | backend/internal/usecase/auth.go:65 | the text before the first '@', or the whole address: a prefix without '@' that is followed by '@' when shorter |
| AuthUsecase.Slug | backend/internal/usecase/auth.go:65 | local part, '-', then the first 8 characters of the tenant id |
| AuthUsecase.SlugDeterminesParts | backend/internal/usecase/auth.go:65 | two slugs are equal iff their local parts and 8-character id prefixes are |
| AuthUsecase.NewAdmin | backend/internal/usecase/auth.go:85-96 | the user Register stores: the drawn ids, the input's email and name, the hash, the admin role, unverified, holding the token, which expires 24 hours after now |
| AuthUsecase.RegisterOutcome | backend/internal/usecase/auth.go:58-115 | a failure writes no user; at most the new tenant is added; success adds exactly that tenant and that user |
| AuthUsecase.RegisterCreatesTenantAndAdmin | backend/internal/usecase/auth.go:58-115 | success adds exactly the tenant with the derived slug and one unverified admin; the admin holds the third drawn id as token, which expires 24 hours later |
| AuthUsecase.RegisterFailures | backend/internal/usecase/auth.go:65-100 | a short id panics; a refused tenant writes nothing; after the tenant insert, a hash or user failure leaves that tenant and no user; UserAlreadyExists is never returned |
| AuthUsecase.IssueTokens | backend/internal/usecase/auth.go:151-159 | an access and a refresh token signed over the same claims; the first signing error is passed on |
| AuthUsecase.ClaimsOf | backend/internal/usecase/auth.go:151 | the claims are the user's id, tenant, email and role name |
| AuthUsecase.LoginOutcome | backend/internal/usecase/auth.go:134-170 | a missing user or a wrong password is InvalidCredentials; EmailNotVerified iff the password is right and the email unverified; success iff verified with the right password; both tokens carry the stored user's claims |
| AuthUsecase.Verified | backend/internal/usecase/auth.go:185-187 | verified, with token and expiry cleared, and nothing else changed |
| AuthUsecase.VerifyDecision | backend/internal/usecase/auth.go:172-183 | an unknown token is InvalidToken; an expiry strictly before now is TokenExpired; a missing expiry never expires |
| AuthUsecase.VerifyOutcome | backend/internal/usecase/auth.go:172-198 | a failure writes nothing; the set of users never changes |
| AuthUsecase.VerifyEmailConsumesToken | backend/internal/usecase/auth.go:172-198 | success marks exactly the token's holder verified and clears the token; the same token is then unknown; a failure writes nothing |
| AuthUsecase.RefreshOutcome | backend/internal/usecase/auth.go:200-220 | a token the validator rejects at now is InvalidToken; otherwise both new tokens carry exactly the validated claims |
| AuthUsecase.RefreshAfterLoginKeepsIdentity | backend/internal/usecase/auth.go:156-220 | with a validator that honours the signed expiry, a login's refresh token is accepted for 7 days and refreshing it then gives tokens for the same user, tenant, email and role; from the seventh day on it is refused as InvalidToken |
| AuthUsecase.AuthInteractor.GenerateIds | backend/internal/usecase/auth.go:60-62 | the ids are drawn in the order tenant, user, verification token |
| AuthUsecase.AuthInteractor.Register | backend/internal/usecase/auth.go:58-115 | draws three ids and gives the register outcome on both tables |
| AuthUsecase.AuthInteractor.Login | backend/internal/usecase/auth.go:117-132 | always InvalidCredentials |
| AuthUsecase.AuthInteractor.LoginWithTenant | backend/internal/usecase/auth.go:134-170 | the login outcome for the table's answer to the email lookup within the tenant |
| AuthUsecase.AuthInteractor.VerifyEmail | backend/internal/usecase/auth.go:172-198 | the verification outcome on the users table |
| AuthUsecase.AuthInteractor.RefreshToken | backend/internal/usecase/auth.go:200-220 | the refresh outcome |
| AuthUsecase.AuthInteractor.constructor | backend/internal/usecase/auth.go:40-56 | the interactor holds the repositories, services and generator it is given |
| Pkg.AccessPayload | backend/internal/pkg/jwt.go:26-36 | an access token carries the claims and expires 15 minutes after issue |
| Pkg.RefreshPayload | backend/internal/pkg/jwt.go:42-52 | a refresh token carries the claims and expires 7 days after issue |
| Pkg.GenerateAccessToken | backend/internal/pkg/jwt.go:26-40 | the signed 15-minute token for the claims, or the signer's error passed on |
| Pkg.GenerateRefreshToken | backend/internal/pkg/jwt.go:42-56 | the signed 7-day token for the claims, or the signer's error passed on |
| Http.ContextId | backend/internal/presentation/public/controller/todo.go:31-34 | the context id when it is present and non-empty, otherwise nothing |
| JwtMiddleware.BearerToken | backend/internal/presentation/public/router/middleware/jwt_auth.go:28-33 | a header whose space count is not one is refused |
| JwtMiddleware.AcceptedHeaderShape | backend/internal/presentation/public/router/middleware/jwt_auth.go:28-33 | an accepted header is "bearer" in any case, one space, then the token; the token is the rest and has no space |
| JwtMiddleware.BearerHeaderAccepted | backend/internal/presentation/public/router/middleware/jwt_auth.go:28-33 | every such header is accepted with that token |
| JwtMiddleware.ExtraSpacesRefused | backend/internal/presentation/public/router/middleware/jwt_auth.go:28-31 | a double space or a third word is refused |
| JwtMiddleware.WithClaims | backend/internal/presentation/public/router/middleware/jwt_auth.go:39-42 | the four claims are set and every other context entry is kept |
| JwtMiddleware.Authenticate | backend/internal/presentation/public/router/middleware/jwt_auth.go:21-46 | 401 for a missing header, a malformed header or a token rejected at now; the handler runs iff the bearer token validates at now, on the context carrying its claims |
| JwtMiddleware.AuthenticatedIds | backend/internal/presentation/public/router/middleware/jwt_auth.go:39-42 | after authentication, the controllers' guard finds exactly the token's user and tenant ids, and refuses only an empty claim |
| TodoController.CreateInputOf | backend/internal/presentation/public/controller/todo.go:68-82 | an absent description becomes "" and an absent visibility false; the other fields are passed as sent |
| TodoController.UpdateInputOf | backend/internal/presentation/public/controller/todo.go:96-112 | the same defaults; the path id is the todo id |
| TodoController.TodoFailure | backend/internal/presentation/public/controller/todo.go:113-121 | 404 iff TodoNotFound, 403 iff NotTodoOwner, otherwise 500 with the error's text |
| TodoController.Plain | backend/internal/presentation/public/controller/todo.go:36-41 | a result is rendered; any error is a 500 with its text |
| TodoController.ListTodos | backend/internal/presentation/public/controller/todo.go:30-42 | 401 iff the user id is missing or empty; otherwise the listing asked for by that user |
| TodoController.ListPublicTodos | backend/internal/presentation/public/controller/todo.go:44-56 | 401 iff the tenant id is missing or empty; otherwise the listing asked for by that tenant |
| TodoController.PublicListingIgnoresUser | backend/internal/presentation/public/controller/todo.go:45-50 | the user id in the context plays no part in the public listing |
| TodoController.CreateTodo | backend/internal/presentation/public/controller/todo.go:58-88 | 401 iff the user or tenant id is missing; otherwise the creation those ids ask for |
| TodoController.UpdateTodo | backend/internal/presentation/public/controller/todo.go:90-124 | 401 without a user id; otherwise the update's result, or its error mapped |
| TodoController.DeleteTodo | backend/internal/presentation/public/controller/todo.go:126-144 | 401 without a user id; otherwise the deletion's result, or its error mapped |
| TodoController.UpdateTodoOverTable | backend/internal/presentation/public/controller/todo.go:90-124 | over the table: 404 iff the id is unknown; 403 iff another user owns it; rendered iff the owner sends a title |
| TodoController.DeleteTodoOverTable | backend/internal/presentation/public/controller/todo.go:126-144 | over the table: 404 iff the id is unknown; 403 iff another user owns it; success iff the caller owns it |
| AuthController.Register | backend/internal/presentation/public/controller/auth.go:33-47 | 400 iff UserAlreadyExists; any other error is a 500 |
| AuthController.LoginFailure | backend/internal/presentation/public/controller/auth.go:69-77 | 401 iff InvalidCredentials or EmailNotVerified, each with its own message; otherwise 500 |
| AuthController.Login | backend/internal/presentation/public/controller/auth.go:49-80 | a failed slug lookup is a 500; an unknown slug is 401 before any credential check; otherwise the login runs in the resolved tenant's id |
| AuthController.VerifyEmail | backend/internal/presentation/public/controller/auth.go:82-97 | 400 iff InvalidToken or TokenExpired, each with its own message; otherwise 500 |
| AuthController.RefreshToken | backend/internal/presentation/public/controller/auth.go:99-111 | 401 iff InvalidToken; otherwise 500 |
| AuthController.RegisterConflictUnreachable | backend/internal/presentation/public/controller/auth.go:39-44 | over the interactor, registration never answers 400; every failure is a 500 |
| AuthController.LoginStaysInNamedTenant | backend/internal/presentation/public/controller/auth.go:49-80 | a successful login is into the tenant with the given slug, for a verified user of that tenant with that email and password; an unknown slug is 401 "invalid credentials" |
| UserController.UserFailure | backend/internal/presentation/public/controller/user.go:37-41 | 404 iff UserNotFound, otherwise 500 with the error's text |
| UserController.GetMe | backend/internal/presentation/public/controller/user.go:30-45 | 401 without a user id; otherwise the profile, or the error mapped |
| UserController.UpdateMe | backend/internal/presentation/public/controller/user.go:47-64 | 401 without a user id; only the requested name is forwarded |
| UserController.AuthenticatedGetMe | backend/internal/presentation/public/controller/user.go:30-45 | through the middleware: a token of a stored user gets that user's own profile; an empty user claim is 401; an unknown one is 404 |
| UserController.UpdateMeOverTable | backend/internal/presentation/public/controller/user.go:47-64 | over the table: 404 iff the caller is unknown; otherwise the caller's profile with the new name, and the same email and role |

## Left out

- Database driver failures of queries are not modelled. In memory, a find does not fail, except `.Only` on several matching rows.
- The storage errors carry only the repository's prefix, such as "failed to create todo". The driver's wrapped text after the colon is not modelled.
- Foreign keys are not checked. The schemas at backend/internal/ent/schema/todo.go:33-50 require a todo's tenant and user to exist.
- The users schema is not part of this model. A user insert is refused only for a duplicate primary key. An update of a present row always succeeds, even with an empty name, which the schema might refuse if it marks the name NotEmpty. `UserRepository.Created` and `UserRepository.Overwritten` assume the users schema defaults and refreshes the timestamps as the todo and tenant schemas do.
- Postgres row-level security and `SET app.current_tenant_id` (backend/internal/infrastructure/database) enforce tenant isolation on the database side, and are not modelled. Under it, another tenant's todo would be invisible to Update and Delete, which would answer 404; the model, holding every tenant's rows in one table, answers 403.
- The verification email (backend/internal/infrastructure/repository/auth.go) is I/O. Its failure is ignored by Register, so the model leaves the call out.
- The real random UUID generator (backend/internal/pkg/uuid.go) is not modelled. The interactors draw from the mock generator, which can stand for any finite run of ids.
- JWT signing and parsing (HS256 through a library) and bcrypt hashing are abstract functions. Their error text is whatever the library reports. No cryptographic fact is claimed.
- The presenters, JSON binding, success status codes and request validation are left out. A handler's success is modelled as rendering the interactor's output.
- The echo context is modelled as a value that the middleware passes on rather than an object updated in place. A context value of a non-string type cannot be represented; the controllers would treat one as missing.
- AuthController.Login: the type assertion to the concrete auth interactor always succeeds with the wiring in backend/cmd/api/main.go, so its "internal error" branch is not modelled.
- GoStrings.Lower covers only ASCII. It agrees with Go's Unicode `strings.ToLower` for the comparison with "bearer", because the only non-ASCII characters Go lowers to ASCII letters are the Kelvin sign U+212A, which becomes 'k', and the dotted capital I U+0130, which becomes 'i', and neither letter occurs in "bearer".
- Strings are sequences of characters, while Go slices bytes. `tenantID[:8]` is modelled on characters, which agrees for the ASCII ids the generator produces.
- Each request reads the clock once as `now`. The Go code reads it several times, so its timestamps may differ by the time the request takes.
- TodoRepository.SelectNewestFirst: rows with equal creation times may come in any order, as in SQL, so the contract fixes only the order by creation time.
- The panic body that echo returns on a short tenant id is not modelled beyond the 500 status and a fixed message.
- The tenant-less Login makes a lookup by an empty token (backend/internal/usecase/auth.go:124) whose result it never uses; the model makes the same call.
- `main.go` wiring, CORS, environment configuration and the frontend are not part of this model.
