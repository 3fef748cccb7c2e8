/**
  Registration and login (src/controllers/authController.js). The tenant and
  user collections are fields of `AuthStore`; `Register` writes them and
  `Login` is a function of them. Password hashing (bcrypt) is the parameter
  `hash`, password comparison the parameter `matches`, and the signing key
  (the JWT secret) the parameter `key`.
 */
module AuthController {
  import opened Wrappers
  import opened Text
  import opened UserModel
  import opened Tokens

  /** A tenant (organisation); the Tenant schema is not part of this model. */
  datatype Tenant = Tenant(id: TenantId, name: string, createdAt: int)

  /** The `user` object of the reply. */
  datatype Profile = Profile(id: UserId, email: string, role: Role, tenantId: TenantId, tenantName: string)

  datatype Session = Session(token: Token, user: Profile)

  datatype AuthError = AuthError(status: nat, message: string)

  const UserExists := AuthError(400, "User already exists with this email")
  const TenantExists := AuthError(400, "Tenant already exists with this name")
  const UnknownEmail := AuthError(404, "Invalid credentials")
  const WrongPassword := AuthError(400, "Invalid credentials")
  const InternalError := AuthError(500, "Internal server error")

  /** `Tenant.findOne({ name })`. */
  function FindTenantByName(tenants: seq<Tenant>, name: string): (r: Option<Tenant>)
    ensures r.Some? ==> r.value in tenants && r.value.name == name
    ensures r.None? <==> forall i :: 0 <= i < |tenants| ==> tenants[i].name != name
  {
    if tenants == [] then None
    else if tenants[0].name == name then Some(tenants[0])
    else FindTenantByName(tenants[1..], name)
  }

  /** `populate("tenantId")`: the tenant a user points at. */
  function FindTenantById(tenants: seq<Tenant>, id: TenantId): (r: Option<Tenant>)
    ensures r.Some? ==> r.value in tenants && r.value.id == id
    ensures r.None? <==> forall i :: 0 <= i < |tenants| ==> tenants[i].id != id
  {
    if tenants == [] then None
    else if tenants[0].id == id then Some(tenants[0])
    else FindTenantById(tenants[1..], id)
  }

  /** Appending a tenant does not change the lookup of an id it does not carry, and finds its own. */
  lemma {:induction false} FindTenantByIdAppend(tenants: seq<Tenant>, t: Tenant, id: TenantId)
    requires FindTenantById(tenants, t.id).None?
    ensures FindTenantById(tenants + [t], id) ==
            if id == t.id then Some(t) else FindTenantById(tenants, id)
  {
    if tenants != [] {
      assert (tenants + [t])[1..] == tenants[1..] + [t];
      FindTenantByIdAppend(tenants[1..], t, id);
    }
  }

  /** The token claims and reply of a session of user `u` in tenant `t`. */
  function SessionFor(key: string, u: User, t: Tenant): (s: Session)
    ensures Verify(key, s.token) == Some(Payload(u.id, t.id, u.role))
    ensures s.user.id == u.id && s.user.role == u.role && s.user.tenantId == t.id
  {
    Session(Sign(key, Payload(u.id, t.id, u.role)), Profile(u.id, u.email, u.role, t.id, t.name))
  }

  /**
    `login`: an unknown email is answered 404 and a wrong password 400, both
    with "Invalid credentials"; otherwise a token carrying the stored user's
    id, tenant and role. A user whose tenant is gone makes the handler fail.
   */
  function Login(tenants: seq<Tenant>, users: seq<User>, email: string, password: string,
                 matches: (string, string) -> bool, key: string): (r: Result<Session, AuthError>)
    ensures FindByEmail(users, email).None? ==> r == Failure(UnknownEmail)
    ensures FindByEmail(users, email).Some? && !matches(password, FindByEmail(users, email).value.password) ==>
              r == Failure(WrongPassword)
    ensures (&& FindByEmail(users, email).Some?
             && matches(password, FindByEmail(users, email).value.password)
             && FindTenantById(tenants, FindByEmail(users, email).value.tenantId).Some?) ==> r.Success?
    ensures r.Success? ==>
              && FindByEmail(users, email).Some?
              && matches(password, FindByEmail(users, email).value.password)
              && LoggedInAs(r.value, FindByEmail(users, email).value, tenants, key)
    ensures r.Failure? ==> r.error.message == "Invalid credentials" || r.error == InternalError
    ensures r == Failure(InternalError) ==> FindTenantById(tenants, FindByEmail(users, email).value.tenantId).None?
  {
    var found := FindByEmail(users, email);
    if found.None? then Failure(UnknownEmail)
    else if !matches(password, found.value.password) then Failure(WrongPassword)
    else
      var tenant := FindTenantById(tenants, found.value.tenantId);
      if tenant.None? then Failure(InternalError)
      else Success(SessionFor(key, found.value, tenant.value))
  }

  /** A session for stored user `u`: its token carries `u`'s id, tenant and role, its reply `u`'s profile. */
  predicate LoggedInAs(s: Session, u: User, tenants: seq<Tenant>, key: string) {
    && Verify(key, s.token) == Some(Payload(u.id, u.tenantId, u.role))
    && FindTenantById(tenants, u.tenantId).Some?
    && s.user == Profile(u.id, u.email, u.role, u.tenantId, FindTenantById(tenants, u.tenantId).value.name)
  }

  /** Tenant ids are below the next id and unique, tenant names unique. */
  ghost predicate TenantsValid(tenants: seq<Tenant>, nextTenantId: nat) {
    && (forall i :: 0 <= i < |tenants| ==> tenants[i].id < nextTenantId)
    && (forall i, j :: 0 <= i < j < |tenants| ==> tenants[i].id != tenants[j].id)
    && (forall i, j :: 0 <= i < j < |tenants| ==> tenants[i].name != tenants[j].name)
  }

  /** User ids are below the next id and unique; emails are unique; every user is well formed. */
  ghost predicate UsersValid(users: seq<User>, nextUserId: nat) {
    && (forall i :: 0 <= i < |users| ==> users[i].id < nextUserId && WellFormed(users[i]))
    && (forall i, j :: 0 <= i < j < |users| ==> users[i].id != users[j].id)
    && EmailsUnique(users)
  }

  /** Every user's tenant exists. */
  ghost predicate UsersHaveTenants(tenants: seq<Tenant>, users: seq<User>) {
    forall i :: 0 <= i < |users| ==> FindTenantById(tenants, users[i].tenantId).Some?
  }

  /** What the two collections always satisfy. */
  ghost predicate TablesValid(tenants: seq<Tenant>, users: seq<User>, nextTenantId: nat, nextUserId: nat) {
    TenantsValid(tenants, nextTenantId) && UsersValid(users, nextUserId) && UsersHaveTenants(tenants, users)
  }

  /** Saving a tenant under a fresh id and an unused name keeps the tenants valid and finds it by id. */
  lemma AddTenantKeepsValid(tenants: seq<Tenant>, nt: nat, t: Tenant)
    requires TenantsValid(tenants, nt)
    requires t.id == nt && FindTenantByName(tenants, t.name).None?
    ensures TenantsValid(tenants + [t], nt + 1)
    ensures FindTenantById(tenants + [t], t.id) == Some(t)
  {
    var ts := tenants + [t];
    assert FindTenantById(tenants, t.id).None?;
    FindTenantByIdAppend(tenants, t, t.id);
    forall i, j | 0 <= i < j < |ts| ensures ts[i].id != ts[j].id && ts[i].name != ts[j].name {
      assert ts[i] == tenants[i];
    }
  }

  /** Users keep their tenants when a tenant with a fresh id is appended. */
  lemma AddTenantKeepsUsersLinked(tenants: seq<Tenant>, users: seq<User>, t: Tenant)
    requires UsersHaveTenants(tenants, users) && FindTenantById(tenants, t.id).None?
    ensures UsersHaveTenants(tenants + [t], users)
  {
    forall i | 0 <= i < |users| ensures FindTenantById(tenants + [t], users[i].tenantId).Some? {
      FindTenantByIdAppend(tenants, t, users[i].tenantId);
    }
  }

  /** Saving a well-formed user with a fresh id and email, in an existing tenant, keeps the users valid. */
  lemma AddUserKeepsValid(tenants: seq<Tenant>, users: seq<User>, nu: nat, u: User)
    requires UsersValid(users, nu) && UsersHaveTenants(tenants, users)
    requires u.id == nu && WellFormed(u) && FindTenantById(tenants, u.tenantId).Some?
    requires FindEmail(users, u.email).None?
    ensures UsersValid(users + [u], nu + 1) && UsersHaveTenants(tenants, users + [u])
  {
  }

  /** On valid tables every user's tenant exists, so a login either succeeds or is refused with "Invalid credentials". */
  lemma LoginNeverFailsInternally(tenants: seq<Tenant>, users: seq<User>, nt: nat, nu: nat,
                                  email: string, password: string,
                                  matches: (string, string) -> bool, key: string)
    requires TablesValid(tenants, users, nt, nu)
    ensures var r := Login(tenants, users, email, password, matches, key);
            r.Failure? ==> r.error.message == "Invalid credentials"
  {
  }

  /**
    A user stored by registration can log in, under any spelling of its email
    that normalises to the stored one, with the password whose hash was stored.
   */
  lemma RegisteredUserCanLogIn(tenants: seq<Tenant>, users: seq<User>, t: Tenant, u: User,
                               password: string, matches: (string, string) -> bool, key: string)
    requires WellFormed(u) && FindEmail(users, u.email).None?
    requires FindTenantById(tenants, t.id).None? && u.tenantId == t.id
    requires matches(password, u.password)
    ensures forall email :: NormalizeEmail(email) == u.email ==>
              Login(tenants + [t], users + [u], email, password, matches, key) == Success(SessionFor(key, u, t))
  {
    FindEmailAppended(users, u, u.email);
    FindTenantByIdAppend(tenants, t, t.id);
  }

  /** The admin user `register` creates: a user with role "admin", validated as on save. */
  function NewAdmin(id: UserId, tenantId: TenantId, email: string, password: string, now: int): (r: Option<User>)
    ensures r == NewUser(id, tenantId, email, password, Some("admin"), now)
    ensures r.Some? <==> Trim(email) != [] && password != []
    ensures r.Some? ==> && WellFormed(r.value) && r.value.id == id && r.value.tenantId == tenantId
                        && r.value.email == NormalizeEmail(email) && r.value.password == password
                        && r.value.role == AdminRole
  {
    var r := NewUser(id, tenantId, email, password, Some("admin"), now);
    assert r.Some? ==> RoleName(r.value.role) == "admin";
    r
  }

  /** The tenant and user collections, with the next ids to issue. */
  class AuthStore {
    var tenants: seq<Tenant>
    var users: seq<User>
    var nextTenantId: nat
    var nextUserId: nat

    ghost predicate Valid()
      reads this
    {
      TablesValid(tenants, users, nextTenantId, nextUserId)
    }

    constructor ()
      ensures Valid() && tenants == [] && users == [] && nextTenantId == 0 && nextUserId == 0
    {
      tenants, users := [], [];
      nextTenantId, nextUserId := 0, 0;
    }

    /** `tenant.save()`: stores a tenant under the next id and an unused name. */
    method SaveTenant(t: Tenant)
      requires Valid() && t.id == nextTenantId && FindTenantByName(tenants, t.name).None?
      modifies this
      ensures Valid()
      ensures tenants == old(tenants) + [t] && nextTenantId == old(nextTenantId) + 1
      ensures users == old(users) && nextUserId == old(nextUserId)
      ensures FindTenantById(tenants, t.id) == Some(t)
    {
      AddTenantKeepsValid(tenants, nextTenantId, t);
      AddTenantKeepsUsersLinked(tenants, users, t);
      tenants := tenants + [t];
      nextTenantId := nextTenantId + 1;
    }

    /** `user.save()` on a validated user whose email is not yet stored: the unique index lets it through. */
    method SaveUser(u: User)
      requires Valid() && u.id == nextUserId && WellFormed(u)
      requires FindTenantById(tenants, u.tenantId).Some? && FindEmail(users, u.email).None?
      modifies this
      ensures Valid()
      ensures users == old(users) + [u] && nextUserId == old(nextUserId) + 1
      ensures tenants == old(tenants) && nextTenantId == old(nextTenantId)
    {
      var saved := InsertUnique(users, u);
      assert saved.Some?;
      AddUserKeepsValid(tenants, users, nextUserId, u);
      users := saved.value;
      nextUserId := nextUserId + 1;
    }

    /**
      `register`: the email check comes first, then the tenant-name check;
      either refusal writes nothing. Otherwise the tenant is saved, then its
      admin user with the hashed password; should the user fail validation,
      the tenant stays saved.
     */
    method Register(tenantName: string, email: string, password: string,
                    hash: string -> string, key: string, now: int)
      returns (r: Result<Session, AuthError>)
      requires Valid()
      modifies this
      ensures Valid()
      ensures FindByEmail(old(users), email).Some? ==>
                && r == Failure(UserExists)
                && tenants == old(tenants) && users == old(users)
                && nextTenantId == old(nextTenantId) && nextUserId == old(nextUserId)
      ensures FindByEmail(old(users), email).None? && FindTenantByName(old(tenants), tenantName).Some? ==>
                && r == Failure(TenantExists)
                && tenants == old(tenants) && users == old(users)
                && nextTenantId == old(nextTenantId) && nextUserId == old(nextUserId)
      ensures FindByEmail(old(users), email).None? && FindTenantByName(old(tenants), tenantName).None? ==>
                var t := Tenant(old(nextTenantId), tenantName, now);
                && tenants == old(tenants) + [t]
                && nextTenantId == old(nextTenantId) + 1
                && match NewAdmin(old(nextUserId), t.id, email, hash(password), now)
                   case None =>
                     r == Failure(InternalError) && users == old(users) && nextUserId == old(nextUserId)
                   case Some(u) =>
                     && users == old(users) + [u]
                     && nextUserId == old(nextUserId) + 1
                     && r == Success(SessionFor(key, u, t))
      ensures r.Success? ==> Verify(key, r.value.token) == Some(Payload(old(nextUserId), old(nextTenantId), AdminRole))
    {
      if FindByEmail(users, email).Some? {
        return Failure(UserExists);
      }
      if FindTenantByName(tenants, tenantName).Some? {
        return Failure(TenantExists);
      }
      var hashed := hash(password);
      var t := Tenant(nextTenantId, tenantName, now);
      SaveTenant(t);

      var made := NewAdmin(nextUserId, t.id, email, hashed, now);
      if made.None? {
        return Failure(InternalError);
      }
      var u := made.value;
      SaveUser(u);
      r := Success(SessionFor(key, u, t));
    }
  }
}
