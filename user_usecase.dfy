/** The user interactor (usecase/user.go): reading and renaming the caller. */
module UserUsecase {
  import opened Common
  import opened Model
  import opened Ports
  import UR = UserRepository

  function ToUserOutput(u: User): (o: UserOutput)
    ensures o.id == u.id && o.tenantId == u.tenantId && o.email == u.email && o.name == u.name
    ensures o.role == RoleName(u.role) && o.emailVerified == u.emailVerified
    ensures o.createdAt == u.createdAt && o.updatedAt == u.updatedAt
  {
    UserOutput(u.id, u.tenantId, u.email, u.name, RoleName(u.role), u.emailVerified, u.createdAt, u.updatedAt)
  }

  /** GetMe on the table: the caller's profile, or UserNotFound. */
  function GetMeOutcome(users: map<string, User>, userId: string): (r: Result<UserOutput>)
    ensures r.Ok? <==> userId in users
    ensures r.Err? ==> r.error == UserNotFound
    ensures r.Ok? ==> r.value == ToUserOutput(users[userId])
  {
    if userId in users then Ok(ToUserOutput(users[userId])) else Err(UserNotFound)
  }

  datatype Step = Step(result: Result<UserOutput>, users: map<string, User>)

  /** What UpdateMe does to the table. */
  function UpdateMeOutcome(users: map<string, User>, userId: string, inp: UpdateUserInput, now: int): (s: Step)
    ensures s.result.Err? <==> userId !in users
    ensures s.result.Err? ==> s.result.error == UserNotFound && s.users == users
    ensures s.result.Ok? ==> s.users.Keys == users.Keys && s.result.value.name == inp.name
  {
    if userId !in users then Step(Err(UserNotFound), users)
    else
      var row := UR.Overwritten(users[userId], users[userId].(name := inp.name), now);
      Step(Ok(ToUserOutput(row)), users[userId := row])
  }

  /** UpdateMe renames the caller and touches nothing else: email, role,
      verification state, token and password stay as they were; an unknown
      caller gets UserNotFound and nothing is written. The answer is what a
      GetMe right after it would return. */
  lemma UpdateMeChangesOnlyName(users: map<string, User>, userId: string, inp: UpdateUserInput, now: int)
    requires UR.KeyedById(users)
    ensures var s := UpdateMeOutcome(users, userId, inp, now);
      && (userId !in users ==> s == Step(Err(UserNotFound), users))
      && (userId in users ==>
            && s.users == users[userId := users[userId].(name := inp.name, updatedAt := now)]
            && UR.KeyedById(s.users)
            && s.result == GetMeOutcome(s.users, userId)
            && s.result.value.name == inp.name)
  {
  }

  class UserInteractor {
    const userRepo: UR.UserRepository

    ghost predicate Valid()
      reads this, userRepo
    {
      userRepo.Valid()
    }

    constructor (userRepo: UR.UserRepository)
      requires userRepo.Valid()
      ensures Valid() && this.userRepo == userRepo
    {
      this.userRepo := userRepo;
    }

    method GetMe(userId: string) returns (r: Result<UserOutput>)
      requires Valid()
      ensures r == GetMeOutcome(userRepo.rows, userId)
    {
      var user := userRepo.FindByID(userId);
      if user.None? {
        return Err(UserNotFound);
      }
      var u := user.value;
      r := Ok(UserOutput(u.id, u.tenantId, u.email, u.name, RoleName(u.role), u.emailVerified, u.createdAt, u.updatedAt));
    }

    method UpdateMe(userId: string, inp: UpdateUserInput, now: int) returns (r: Result<UserOutput>)
      requires Valid()
      modifies userRepo
      ensures Valid()
      ensures Step(r, userRepo.rows) == UpdateMeOutcome(old(userRepo.rows), userId, inp, now)
    {
      var user := userRepo.FindByID(userId);
      if user.None? {
        return Err(UserNotFound);
      }
      var u := user.value;
      u := u.(name := inp.name);
      var updated := userRepo.Update(u, now);
      // the row was just read, so the error return of Update cannot happen here
      assert updated.Ok?;
      var v := updated.value;
      r := Ok(UserOutput(v.id, v.tenantId, v.email, v.name, RoleName(v.role), v.emailVerified, v.createdAt, v.updatedAt));
    }
  }
}
