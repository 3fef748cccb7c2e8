/**
  The User document (src/models/User.js): tenant affiliation, a globally
  unique normalised email, the password hash and the role enumeration.
 */
module UserModel {
  import opened Wrappers
  import opened Text

  type TenantId = nat
  type UserId = nat

  /** The `role` enumeration: "admin", "manager" or "user". */
  datatype Role = AdminRole | ManagerRole | UserRole

  /** The stored spelling of a role. */
  function RoleName(role: Role): (s: string)
    ensures s in {"admin", "manager", "user"}
    ensures ParseRole(s) == Some(role)
  {
    match role
    case AdminRole => "admin"
    case ManagerRole => "manager"
    case UserRole => "user"
  }

  /** The enum validator: only the three spellings name a role. */
  function ParseRole(s: string): (r: Option<Role>)
    ensures r.Some? <==> s in {"admin", "manager", "user"}
  {
    if s == "admin" then Some(AdminRole)
    else if s == "manager" then Some(ManagerRole)
    else if s == "user" then Some(UserRole)
    else None
  }

  /** The schema default of `role`. */
  const DefaultRole := UserRole

  datatype User = User(
    id: UserId,
    tenantId: TenantId,
    email: string,
    password: string,
    role: Role,
    createdAt: int)

  /** What every stored user satisfies: a normalised non-empty email and a non-empty password. */
  predicate WellFormed(u: User) {
    IsNormalEmail(u.email) && u.email != [] && u.password != []
  }

  /**
    `new User({...})` followed by validation on save: None when the email is
    empty once trimmed, the password is empty, or the role is outside the enum.
   */
  function NewUser(id: UserId, tenantId: TenantId, email: string, password: string,
                   role: Option<string>, now: int): (r: Option<User>)
    ensures r.Some? <==> Trim(email) != [] && password != [] && (role.Some? ==> ParseRole(role.value).Some?)
    ensures r.Some? ==> WellFormed(r.value)
    ensures r.Some? ==> r.value.id == id && r.value.tenantId == tenantId && r.value.createdAt == now
    ensures r.Some? ==> r.value.email == NormalizeEmail(email) && r.value.password == password
    ensures r.Some? && role.None? ==> r.value.role == DefaultRole
    ensures r.Some? && role.Some? ==> RoleName(r.value.role) == role.value
  {
    var e := NormalizeEmail(email);
    if e == [] || password == [] then None
    else if role.None? then Some(User(id, tenantId, e, password, DefaultRole, now))
    else match ParseRole(role.value)
      case None => None
      case Some(rl) => Some(User(id, tenantId, e, password, rl, now))
  }

  /** The `unique: true` index on `email`: no two users share one, across all tenants. */
  predicate EmailsUnique(users: seq<User>) {
    forall i, j :: 0 <= i < j < |users| ==> users[i].email != users[j].email
  }

  /** `User.findOne({ email })`; the query value goes through the same setters. */
  function FindByEmail(users: seq<User>, email: string): (r: Option<User>)
    ensures r.Some? ==> r.value in users && r.value.email == NormalizeEmail(email)
    ensures r.None? <==> forall i :: 0 <= i < |users| ==> users[i].email != NormalizeEmail(email)
  {
    FindEmail(users, NormalizeEmail(email))
  }

  function FindEmail(users: seq<User>, key: string): (r: Option<User>)
    ensures r.Some? ==> r.value in users && r.value.email == key
    ensures r.None? <==> forall i :: 0 <= i < |users| ==> users[i].email != key
  {
    if users == [] then None
    else if users[0].email == key then Some(users[0])
    else FindEmail(users[1..], key)
  }

  /** A user appended with a fresh email is what a lookup of that email finds. */
  lemma {:induction false} FindEmailAppended(users: seq<User>, u: User, key: string)
    requires FindEmail(users, key).None?
    requires u.email == key
    ensures FindEmail(users + [u], key) == Some(u)
  {
    if users != [] {
      assert (users + [u])[1..] == users[1..] + [u];
      FindEmailAppended(users[1..], u, key);
    }
  }

  /** An insert through the unique index: refused when the email is already stored. */
  function InsertUnique(users: seq<User>, u: User): (r: Option<seq<User>>)
    ensures r.Some? <==> FindEmail(users, u.email).None?
    ensures r.Some? ==> r.value == users + [u]
    ensures r.Some? && EmailsUnique(users) ==> EmailsUnique(r.value)
  {
    if FindEmail(users, u.email).None? then Some(users + [u]) else None
  }
}
