/** `UserService`: registration with its ordered uniqueness checks, lookup
    by id, the field-copying update and the mapping of a user row to the
    `UserResponse` the API returns. The users table is a sequence of rows;
    fresh ids come from a counter. */
module UserService {
  import opened Wrappers
  import opened UserEntity
  import opened ExceptionHandler

  /** The registration form. A form that leaves the e-mail preference out
      carries its initialiser, `true`. */
  datatype RegisterRequest = RegisterRequest(
    username: string,
    email: string,
    password: string,
    firstName: Option<string>,
    lastName: Option<string>,
    emailNotificationsEnabled: bool)

  /** What the API returns for a user: every column except the password,
      plus the display name, with the role as its enum name. */
  datatype UserResponse = UserResponse(
    id: Id,
    username: string,
    email: string,
    firstName: Option<string>,
    lastName: Option<string>,
    fullName: string,
    role: string,
    emailNotificationsEnabled: bool,
    unreadNotificationCount: int)

  /** `UserRole.name()`. */
  function RoleName(role: UserRole): (s: string)
    ensures s == "ADMIN" <==> role == ADMIN
    ensures s == "USER" <==> role == USER
  {
    match role
    case ADMIN => "ADMIN"
    case USER => "USER"
  }

  /** `mapToResponse`. */
  function MapToResponse(u: User): (r: UserResponse)
    ensures r.id == u.id && r.username == u.username && r.email == u.email
    ensures r.firstName == u.firstName && r.lastName == u.lastName
    ensures r.fullName == FullName(u)
    ensures r.emailNotificationsEnabled == u.emailNotificationsEnabled
    ensures r.unreadNotificationCount == u.unreadNotificationCount
  {
    UserResponse(u.id, u.username, u.email, u.firstName, u.lastName, FullName(u),
                 RoleName(u.role), u.emailNotificationsEnabled, u.unreadNotificationCount)
  }

  /** The row a response describes, given the password it leaves out. */
  function UserOfResponse(r: UserResponse, password: string): User
  {
    User(r.id, r.username, r.email, password, r.firstName, r.lastName,
         if r.role == "ADMIN" then ADMIN else USER,
         r.emailNotificationsEnabled, r.unreadNotificationCount)
  }

  /** The response never depends on the password, and together with the
      password it determines the row: nothing but the password is lost. */
  lemma ResponseHidesOnlyPassword(u: User, password: string)
    ensures MapToResponse(u.(password := password)) == MapToResponse(u)
    ensures UserOfResponse(MapToResponse(u), u.password) == u
  {
  }

  /** `existsByUsername`. */
  predicate UsernameTaken(users: seq<User>, username: string)
  {
    exists i :: 0 <= i < |users| && users[i].username == username
  }

  /** `existsByEmail`. */
  predicate EmailTaken(users: seq<User>, email: string)
  {
    exists i :: 0 <= i < |users| && users[i].email == email
  }

  /** The users table and the id the next saved row receives. */
  datatype UserStore = UserStore(users: seq<User>, nextId: nat)

  /** Ids are unique and below the counter; usernames and e-mail addresses
      are unique, as the table's unique columns demand. */
  predicate StoreValid(db: UserStore)
  {
    UniqueIds(db.users) && UniqueUsernames(db.users) && UniqueEmails(db.users) &&
    forall i :: 0 <= i < |db.users| ==> db.users[i].id < db.nextId
  }

  /** The row `register` builds from a request: every field of the form is
      copied, the role is USER and the unread counter 0. */
  function RegisteredUser(id: Id, req: RegisterRequest): (u: User)
    ensures u.id == id && u.username == req.username && u.email == req.email && u.password == req.password
    ensures u.firstName == req.firstName && u.lastName == req.lastName
    ensures u.emailNotificationsEnabled == req.emailNotificationsEnabled
    ensures u.role == USER && u.unreadNotificationCount == 0
  {
    User(id, req.username, req.email, req.password, req.firstName, req.lastName,
         USER, req.emailNotificationsEnabled, 0)
  }

  /** `register` as a function of the store: the username is checked first,
      then the e-mail address; a request passing both is saved. */
  function AfterRegister(db: UserStore, req: RegisterRequest): (Result<UserResponse, Failure>, UserStore)
  {
    if UsernameTaken(db.users, req.username) then
      (Err(UserAlreadyExists("username", req.username)), db)
    else if EmailTaken(db.users, req.email) then
      (Err(UserAlreadyExists("email", req.email)), db)
    else
      var u := RegisteredUser(db.nextId, req);
      (Ok(MapToResponse(u)), UserStore(db.users + [u], db.nextId + 1))
  }

  /** The three outcomes of `register`: a taken username wins over a taken
      e-mail address, both failures leave the store alone, and success
      appends exactly the row built from the request. */
  lemma RegisterOutcomes(db: UserStore, req: RegisterRequest)
    ensures UsernameTaken(db.users, req.username) ==>
              AfterRegister(db, req) == (Err(UserAlreadyExists("username", req.username)), db)
    ensures !UsernameTaken(db.users, req.username) && EmailTaken(db.users, req.email) ==>
              AfterRegister(db, req) == (Err(UserAlreadyExists("email", req.email)), db)
    ensures AfterRegister(db, req).0.Ok? <==>
              !UsernameTaken(db.users, req.username) && !EmailTaken(db.users, req.email)
    ensures AfterRegister(db, req).0.Ok? ==>
              AfterRegister(db, req).1.users == db.users + [RegisteredUser(db.nextId, req)] &&
              AfterRegister(db, req).1.nextId == db.nextId + 1 &&
              AfterRegister(db, req).0.value.role == "USER" &&
              AfterRegister(db, req).0.value.unreadNotificationCount == 0 &&
              AfterRegister(db, req).0.value.username == req.username &&
              AfterRegister(db, req).0.value.email == req.email
  {
  }

  /** The error a failed registration reports names the clashing field and
      value, and is answered with 409 Conflict. */
  lemma RegisterConflictResponse(db: UserStore, req: RegisterRequest)
    requires AfterRegister(db, req).0.Err?
    ensures Handle(AfterRegister(db, req).0.error).status == 409
    ensures ExceptionMessage(AfterRegister(db, req).0.error) ==
              if UsernameTaken(db.users, req.username)
              then Some("User already exists with username: '" + req.username + "'")
              else Some("User already exists with email: '" + req.email + "'")
  {
    if UsernameTaken(db.users, req.username) {
      assert "User already exists with " + "username" + ": '" == "User already exists with username: '";
    } else {
      assert "User already exists with " + "email" + ": '" == "User already exists with email: '";
    }
  }

  /** Registration keeps the store well formed: ids, usernames and e-mail
      addresses stay unique. */
  lemma RegisterKeepsUnique(db: UserStore, req: RegisterRequest)
    requires StoreValid(db)
    ensures StoreValid(AfterRegister(db, req).1)
  {
    if !UsernameTaken(db.users, req.username) && !EmailTaken(db.users, req.email) {
      var after := AfterRegister(db, req).1.users;
      var n := |db.users|;
      assert after == db.users + [RegisteredUser(db.nextId, req)];
      assert forall k :: 0 <= k < n ==> after[k] == db.users[k];
    }
  }

  /** `getUserById`. */
  function GetUserById(users: seq<User>, id: Id): (r: Result<UserResponse, Failure>)
    ensures r.Err? <==> !HasUser(users, id)
    ensures r.Err? ==> r.error == ResourceNotFound("User", "id")
    ensures r.Ok? ==> r.value.id == id &&
                      exists i :: 0 <= i < |users| && users[i].id == id && MapToResponse(users[i]) == r.value
  {
    var i := IndexOfUser(users, id);
    if i < 0 then Err(ResourceNotFound("User", "id")) else Ok(MapToResponse(users[i]))
  }

  /** `update(id, user)` as a function of the table: the row keeps its id
      and its unread counter and takes every other column from `user`. */
  function AfterUpdateUser(users: seq<User>, id: Id, user: User): (Result<User, Failure>, seq<User>)
  {
    var i := IndexOfUser(users, id);
    if i < 0 then (Err(ResourceNotFound("User", "id")), users)
    else
      var u := users[i].(username := user.username, email := user.email, password := user.password,
                         firstName := user.firstName, lastName := user.lastName, role := user.role,
                         emailNotificationsEnabled := user.emailNotificationsEnabled);
      (Ok(u), SetRow(users, i, u))
  }

  /** An unknown id is not found and changes nothing; otherwise exactly the
      row with that id changes, it keeps its id and its unread counter, and
      every other column comes from `user`. */
  lemma UpdateUserOutcomes(users: seq<User>, id: Id, user: User)
    requires UniqueIds(users)
    ensures !HasUser(users, id) ==> AfterUpdateUser(users, id, user) == (Err(ResourceNotFound("User", "id")), users)
    ensures HasUser(users, id) ==>
              var (r, after) := AfterUpdateUser(users, id, user);
              r.Ok? && |after| == |users| && UniqueIds(after) &&
              (forall j :: 0 <= j < |users| ==>
                 if users[j].id == id
                 then after[j] == r.value && r.value.unreadNotificationCount == users[j].unreadNotificationCount
                 else after[j] == users[j]) &&
              r.value == user.(id := id, unreadNotificationCount := r.value.unreadNotificationCount)
  {
  }

  class UserService {
    var users: seq<User>
    var nextUserId: nat

    function State(): UserStore
      reads this
    {
      UserStore(users, nextUserId)
    }

    ghost predicate Valid()
      reads this
    {
      UniqueIds(users) && forall i :: 0 <= i < |users| ==> users[i].id < nextUserId
    }

    constructor ()
      ensures Valid() && StoreValid(State())
      ensures users == [] && nextUserId == 0
    {
      users := [];
      nextUserId := 0;
    }

    /** `register`. */
    method Register(req: RegisterRequest) returns (r: Result<UserResponse, Failure>)
      requires Valid()
      modifies this
      ensures Valid()
      ensures (r, State()) == AfterRegister(old(State()), req)
      ensures StoreValid(old(State())) ==> StoreValid(State())
    {
      if StoreValid(State()) {
        RegisterKeepsUnique(State(), req);
      }
      if UsernameTaken(users, req.username) {
        return Err(UserAlreadyExists("username", req.username));
      }
      if EmailTaken(users, req.email) {
        return Err(UserAlreadyExists("email", req.email));
      }
      var u := RegisteredUser(nextUserId, req);
      users := users + [u];
      nextUserId := nextUserId + 1;
      r := Ok(MapToResponse(u));
    }

    /** `getUserById`. */
    method GetUser(id: Id) returns (r: Result<UserResponse, Failure>)
      ensures r == GetUserById(users, id)
    {
      var i := IndexOfUser(users, id);
      if i < 0 {
        return Err(ResourceNotFound("User", "id"));
      }
      r := Ok(MapToResponse(users[i]));
    }

    /** `update`. */
    method Update(id: Id, user: User) returns (r: Result<User, Failure>)
      requires Valid()
      modifies this
      ensures Valid()
      ensures (r, users) == AfterUpdateUser(old(users), id, user)
      ensures nextUserId == old(nextUserId)
    {
      var i := IndexOfUser(users, id);
      if i < 0 {
        return Err(ResourceNotFound("User", "id"));
      }
      var u := users[i].(username := user.username, email := user.email, password := user.password,
                         firstName := user.firstName, lastName := user.lastName, role := user.role,
                         emailNotificationsEnabled := user.emailNotificationsEnabled);
      users := SetRow(users, i, u);
      r := Ok(u);
    }
  }
}
