/**
 * src/domain/user/services/index.ts: `UserService.getUserById` and
 * `UserService.createUser` over the user repository.
 *
 * The repository is abstract: two lookup maps and a `create` oracle. Each operation
 * also returns the repository calls it made, in order, so that what is and is not
 * called can be stated.
 */
module UserService {
  import opened Wrappers
  import opened AppErrors
  import opened UserErrors

  /** A stored user; dates are timestamps. */
  datatype User = User(id: string, name: string, email: string, createdAt: int, updatedAt: int)

  /** `userData` of `createUser`. */
  datatype NewUser = NewUser(name: string, email: string)

  /** `UserRepository`: what `findById` and `findByEmail` find, and what `create` returns. */
  datatype Repository = Repository(byId: map<string, User>, byEmail: map<string, User>,
                                   create: NewUser -> User)

  datatype RepositoryCall = FindById(id: string) | FindByEmail(email: string) | Create(data: NewUser)

  /** The resolved user or the thrown error, and the repository calls made. */
  datatype Served = Served(result: Result<User, PlainError>, calls: seq<RepositoryCall>)

  const AlreadyExistsMessage := "ユーザーはすでに存在します"

  function GetUserById(repo: Repository, id: string): Served {
    if id in repo.byId then Served(Success(repo.byId[id]), [FindById(id)])
    else Served(Failure(UserNotFoundError(Some(id))), [FindById(id)])
  }

  function CreateUser(repo: Repository, userData: NewUser): Served {
    if userData.email in repo.byEmail then
      Served(Failure(PlainError("Error", AlreadyExistsMessage)), [FindByEmail(userData.email)])
    else
      Served(Success(repo.create(userData)), [FindByEmail(userData.email), Create(userData)])
  }

  /**
   * `getUserById` makes one lookup with the id it was given and resolves to exactly the
   * stored user; when none is stored it rejects with a `UserNotFoundError` naming the id.
   */
  lemma GetUserByIdFacts(repo: Repository, id: string)
    ensures var out := GetUserById(repo, id);
      && out.calls == [FindById(id)]
      && (out.result.Success? <==> id in repo.byId)
      && (out.result.Success? ==> out.result.value == repo.byId[id])
      && (out.result.Failure? ==>
            out.result.error == UserNotFoundError(Some(id)) && out.result.error.name == "UserNotFoundError")
  {
  }

  /**
   * `createUser` first looks up the e-mail address. If a user has it, the call rejects
   * with 'ユーザーはすでに存在します' and `create` is never called; otherwise it returns
   * what `create` returns for the unchanged input, which is the second and last call.
   */
  lemma CreateUserFacts(repo: Repository, userData: NewUser)
    ensures var out := CreateUser(repo, userData);
      && |out.calls| >= 1 && out.calls[0] == FindByEmail(userData.email)
      && (Create(userData) in out.calls <==> userData.email !in repo.byEmail)
      && (forall c :: c in out.calls && c.Create? ==> c == Create(userData))
      && (userData.email in repo.byEmail ==>
            out == Served(Failure(PlainError("Error", AlreadyExistsMessage)), [FindByEmail(userData.email)]))
      && (userData.email !in repo.byEmail ==>
            out.result == Success(repo.create(userData)) && out.calls[|out.calls| - 1] == Create(userData))
  {
  }

  /** What `createUser` answers depends only on whether the address is taken, not on the id lookups. */
  lemma CreateUserIgnoresIds(repo: Repository, byId: map<string, User>, userData: NewUser)
    ensures CreateUser(repo.(byId := byId), userData) == CreateUser(repo, userData)
  {
  }
}
