/** The `User` entity of the backend: its columns, its field defaults and
    the values derived from it. Record ids are natural numbers standing for
    the database's UUIDs. */
module UserEntity {
  import opened Wrappers

  type Id = nat

  datatype UserRole = ADMIN | USER

  datatype User = User(
    id: Id,
    username: string,
    email: string,
    password: string,
    firstName: Option<string>,
    lastName: Option<string>,
    role: UserRole,
    emailNotificationsEnabled: bool,
    unreadNotificationCount: int)

  /** Default role of a user. */
  const DefaultRole: UserRole := USER
  /** Default e-mail notification preference. */
  const DefaultEmailNotifications: bool := true
  /** Default unread-notification counter. */
  const DefaultUnreadCount: int := 0

  /** A freshly constructed user with only the mandatory columns set: every
      other field holds its initialiser, and the display name falls back to
      the username. */
  function NewUser(id: Id, username: string, email: string, password: string): (u: User)
    ensures u.id == id && u.username == username && u.email == email && u.password == password
    ensures u.role == USER && u.emailNotificationsEnabled && u.unreadNotificationCount == 0
    ensures u.firstName.None? && u.lastName.None?
    ensures FullName(u) == username
  {
    User(id, username, email, password, None, None,
         DefaultRole, DefaultEmailNotifications, DefaultUnreadCount)
  }

  /** The display name: "first last" when both names are set, otherwise the
      one that is set, otherwise the username. */
  function FullName(u: User): (r: string)
    ensures u.firstName.Some? && u.lastName.Some? ==>
              r == u.firstName.value + " " + u.lastName.value
    ensures u.firstName.Some? && u.lastName.None? ==> r == u.firstName.value
    ensures u.firstName.None? && u.lastName.Some? ==> r == u.lastName.value
    ensures u.firstName.None? && u.lastName.None? ==> r == u.username
  {
    if u.firstName.Some? && u.lastName.Some? then u.firstName.value + " " + u.lastName.value
    else if u.firstName.Some? then u.firstName.value
    else if u.lastName.Some? then u.lastName.value
    else u.username
  }

  /** The display name depends on the names and the username only: changing
      the role, the password, the preferences or the unread counter keeps it. */
  lemma FullNameDependsOnNamesOnly(u: User, v: User)
    requires u.firstName == v.firstName && u.lastName == v.lastName && u.username == v.username
    ensures FullName(u) == FullName(v)
  {
  }

  /** Whenever a first name is set, the display name begins with it; whenever
      a last name is set, the display name ends with it. */
  lemma FullNameKeepsNames(u: User)
    ensures u.firstName.Some? ==> u.firstName.value <= FullName(u)
    ensures u.lastName.Some? ==>
              |u.lastName.value| <= |FullName(u)| &&
              FullName(u)[|FullName(u)| - |u.lastName.value|..] == u.lastName.value
  {
    if u.firstName.Some? && u.lastName.Some? {
      var f, l := u.firstName.value, u.lastName.value;
      assert FullName(u) == f + " " + l;
      assert (f + " " + l)[..|f|] == f;
      assert (f + " " + l)[|f| + 1..] == l;
    }
  }

  /** `getAvatarUrl` is a compatibility stub that never yields a URL. */
  function AvatarUrl(u: User): (r: Option<string>)
    ensures r == None
  {
    None
  }

  /* The users table, as the sequence `findAll` returns it. */

  /** No two rows share an id. */
  predicate UniqueIds(users: seq<User>)
  {
    forall i, j :: 0 <= i < |users| && 0 <= j < |users| && users[i].id == users[j].id ==> i == j
  }

  /** No two rows share a username. */
  predicate UniqueUsernames(users: seq<User>)
  {
    forall i, j :: 0 <= i < |users| && 0 <= j < |users| && users[i].username == users[j].username ==> i == j
  }

  /** No two rows share an e-mail address. */
  predicate UniqueEmails(users: seq<User>)
  {
    forall i, j :: 0 <= i < |users| && 0 <= j < |users| && users[i].email == users[j].email ==> i == j
  }

  predicate HasUser(users: seq<User>, id: Id)
  {
    exists i :: 0 <= i < |users| && users[i].id == id
  }

  /** Position of the row with the given id, or -1 (`findById`). */
  function IndexOfUser(users: seq<User>, id: Id): (r: int)
    ensures -1 <= r < |users|
    ensures r >= 0 ==> users[r].id == id
    ensures r < 0 <==> !HasUser(users, id)
  {
    if |users| == 0 then -1
    else if users[0].id == id then 0
    else
      var k := IndexOfUser(users[1..], id);
      assert HasUser(users, id) ==> HasUser(users[1..], id) by {
        if HasUser(users, id) {
          var j :| 0 <= j < |users| && users[j].id == id;
          assert users[1..][j - 1].id == id;
        }
      }
      if k < 0 then -1 else k + 1
  }

  /** `findById`. */
  function FindUser(users: seq<User>, id: Id): (r: Option<User>)
    ensures r.Some? <==> HasUser(users, id)
    ensures r.Some? ==> r.value in users && r.value.id == id
  {
    var i := IndexOfUser(users, id);
    if i < 0 then None else Some(users[i])
  }

  /** `findByUsername`: the first row with that username. */
  function FindByUsername(users: seq<User>, username: string): (r: Option<User>)
    ensures r.Some? ==> r.value in users && r.value.username == username
    ensures r.None? ==> forall i :: 0 <= i < |users| ==> users[i].username != username
  {
    if |users| == 0 then None
    else if users[0].username == username then Some(users[0])
    else FindByUsername(users[1..], username)
  }

  /** `findAll().stream().findFirst()`. */
  function FirstUser(users: seq<User>): (r: Option<User>)
    ensures r.None? <==> users == []
    ensures r.Some? ==> r.value in users
  {
    if users == [] then None else Some(users[0])
  }

  /** The table with row `i` replaced by `u` (a `save` of an existing row). */
  function SetRow(users: seq<User>, i: nat, u: User): (r: seq<User>)
    requires i < |users| && u.id == users[i].id
    ensures |r| == |users| && r[i] == u
    ensures forall j :: 0 <= j < |users| && j != i ==> r[j] == users[j]
    ensures forall j :: 0 <= j < |users| ==> r[j].id == users[j].id
  {
    users[i := u]
  }
}

