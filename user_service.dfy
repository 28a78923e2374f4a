/**
 * User registration and lookup (application/service/UserService.kt).
 */
module UserServices {
  import opened Wrappers
  import opened Types
  import opened Errors
  import opened UseCases
  import opened Stores

  /** Every stored user is filed under its own id. */
  predicate UsersKeyed(users: map<UserId, User>) {
    forall k :: k in users ==> users[k].id == Some(k)
  }

  /** No two users share a username or an email address. */
  predicate UniqueLogins(users: map<UserId, User>) {
    forall a, b ::
      (a in users && b in users && (users[a].username == users[b].username || users[a].email == users[b].email))
      ==> a == b
  }

  /** The outcome of `registerUser`: the answer and the user rows afterwards. */
  datatype Registration = Registration(result: Result<UserCreatedEvent, Throwable>, users: map<UserId, User>)

  /** `registerUser` on values; `newId` is the id the database assigns, if any. */
  function Register(cmd: CreateUserCommand, users: map<UserId, User>, newId: Option<UserId>): (g: Registration)
    ensures g.result.Failure? ==> g.users == users
  {
    if UsernameOrEmailTaken(users, cmd.username, cmd.email) then
      Registration(Failure(Fail(BadRequest, "User with such username or email already exists")), users)
    else if newId.None? then
      Registration(Failure(Fail(Internal, "User was not saved")), users)
    else
      Registration(Success(UserCreatedEvent(newId.value)), users[newId.value := cmd.ToUser().(id := newId)])
  }

  /**
   * Registration succeeds exactly when neither the username nor the email is in
   * use and the database assigns an id; the new row carries the command's fields.
   */
  lemma RegisterSucceeds(cmd: CreateUserCommand, users: map<UserId, User>, newId: Option<UserId>)
    ensures var g := Register(cmd, users, newId);
      g.result.Success? <==> !UsernameOrEmailTaken(users, cmd.username, cmd.email) && newId.Some?
    ensures var g := Register(cmd, users, newId);
      UsernameOrEmailTaken(users, cmd.username, cmd.email) ==>
        g.result == Failure(Fail(BadRequest, "User with such username or email already exists"))
    ensures var g := Register(cmd, users, newId);
      g.result.Success? ==>
        var id := newId.value;
        && g.result.value == UserCreatedEvent(id)
        && g.users.Keys == users.Keys + {id}
        && (forall k :: k in users && k != id ==> g.users[k] == users[k])
        && g.users[id] == User(Some(id), cmd.username, cmd.password, cmd.firstName, cmd.lastName, cmd.email)
  {
  }

  /** Registration keeps users filed under their ids and usernames and emails unique. */
  lemma RegisterKeepsInvariants(cmd: CreateUserCommand, users: map<UserId, User>, newId: Option<UserId>)
    requires UsersKeyed(users) && UniqueLogins(users)
    requires newId.Some? ==> newId.value !in users
    ensures var g := Register(cmd, users, newId);
      UsersKeyed(g.users) && UniqueLogins(g.users)
  {
    var g := Register(cmd, users, newId);
    if g.result.Success? {
      assert forall k :: k in users ==> users[k].username != cmd.username && users[k].email != cmd.email;
    }
  }

  /** `getUser`: the user stored under the id and carrying it; the same not-found error otherwise. */
  function LookupUser(users: map<UserId, User>, q: UserQuery): (r: Result<User, Throwable>)
    ensures r.Success? <==> q.userId in users && users[q.userId].id == Some(q.userId)
    ensures r.Success? ==> r.value == users[q.userId]
    ensures r.Failure? ==> r.error == Fail(NotFound, "User '" + UuidString(q.userId) + "' not found")
  {
    if q.userId !in users || users[q.userId].id != Some(q.userId) then
      Failure(Fail(NotFound, "User '" + UuidString(q.userId) + "' not found"))
    else
      Success(users[q.userId])
  }

  /** A user just registered can be fetched by the id the registration returned. */
  lemma RegisteredUserFound(cmd: CreateUserCommand, users: map<UserId, User>, newId: Option<UserId>)
    requires Register(cmd, users, newId).result.Success?
    ensures var g := Register(cmd, users, newId);
      var r := LookupUser(g.users, UserQuery(g.result.value.userId));
      r.Success? && r.value.username == cmd.username && r.value.email == cmd.email
  {
  }

  /** With users filed under their ids, lookup fails only for an unknown id. */
  lemma LookupFailsOnlyWhenAbsent(users: map<UserId, User>, q: UserQuery)
    requires UsersKeyed(users)
    ensures LookupUser(users, q).Failure? <==> q.userId !in users
  {
  }

  /** The user service over the user store. */
  class UserService {
    const users: UserStore

    constructor (users: UserStore)
      ensures this.users == users
    {
      this.users := users;
    }

    /** `registerUser` */
    method RegisterUser(cmd: CreateUserCommand, newId: Option<UserId>) returns (r: Result<UserCreatedEvent, Throwable>)
      requires newId.Some? ==> newId.value !in users.rows
      modifies users
      ensures Registration(r, users.rows) == Register(cmd, old(users.rows), newId)
    {
      if users.ExistsByUsernameOrEmail(cmd.username, cmd.email) {
        return Failure(Fail(BadRequest, "User with such username or email already exists"));
      }
      var user := users.Save(cmd.ToUser(), newId);
      if user.id.None? {
        return Failure(Fail(Internal, "User was not saved"));
      }
      r := Success(UserCreatedEvent(user.id.value));
    }

    /** `getUser` */
    function GetUser(q: UserQuery): (r: Result<User, Throwable>)
      reads users
      ensures r.Success? ==> q.userId in users.rows && r.value == users.rows[q.userId] && r.value.id == Some(q.userId)
    {
      LookupUser(users.rows, q)
    }
  }
}
