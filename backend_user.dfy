/** The back end's user record: its roles, how a new user is made (the
    e-mail lower-cased, the password hashed, no company unless one is
    given), password setting and checking, and the dictionary the API
    returns for a user. */
module BackendUser {
  import opened Common
  import opened Text
  import opened Hashing

  /** `UserRole`. */
  datatype UserRole = Admin | InsuranceOfficer | Police

  /** `role.value`. */
  function RoleValue(role: UserRole): string
  {
    match role
    case Admin => "admin"
    case InsuranceOfficer => "insurance_officer"
    case Police => "police"
  }

  /** Different roles have different values. */
  lemma RoleValueInjective(a: UserRole, b: UserRole)
    ensures RoleValue(a) == RoleValue(b) <==> a == b
  {
    if a != b {
      assert |RoleValue(a)| != |RoleValue(b)|;
    }
  }

  /** A timestamp, kept as the text `isoformat()` gives for it. */
  datatype DateTime = DateTime(iso: string)

  /** A stored user. `isActive` and `createdAt` are the column defaults a
      new row gets (true and the time of insertion). */
  datatype User = User(
    id: int, email: string, passwordHash: PasswordHash, name: string, role: UserRole,
    companyId: Option<string>, isActive: bool, createdAt: DateTime, lastLogin: Option<DateTime>)

  /** `set_password(password)` with the salt `gensalt()` produced. */
  function SetPassword(u: User, digest: Digest, salt: string, password: string): (v: User)
    ensures v.passwordHash.salt == salt
    ensures v.(passwordHash := u.passwordHash) == u
  {
    u.(passwordHash := HashPassword(digest, salt, password))
  }

  /** `check_password(password)`. */
  predicate CheckPassword(u: User, digest: Digest, password: string)
  {
    Hashing.CheckPassword(digest, u.passwordHash, password)
  }

  /** After `set_password(p)`, `check_password(p)` succeeds, and with a
      digest that tells passwords apart no other password does. */
  lemma SetThenCheck(u: User, digest: Digest, salt: string, password: string, other: string)
    ensures CheckPassword(SetPassword(u, digest, salt, password), digest, password)
    ensures Injective(digest) ==>
              (CheckPassword(SetPassword(u, digest, salt, password), digest, other) <==> other == password)
  {
    if Injective(digest) {
      CheckRejectsOtherPasswords(digest, salt, password, other);
    }
  }

  /** `User(email, password, name, role, company_id)` as it is stored under
      `id` at time `now`. */
  function NewUser(id: int, email: string, password: string, name: string, role: UserRole,
                   companyId: Option<string>, digest: Digest, salt: string, now: DateTime): (u: User)
    ensures u.id == id && u.name == name && u.role == role && u.companyId == companyId
    ensures u.email == Lower(email)
    ensures CheckPassword(u, digest, password)
    ensures u.isActive && u.createdAt == now && u.lastLogin.None?
  {
    User(id, Lower(email), HashPassword(digest, salt, password), name, role, companyId, true, now, None)
  }

  /** The values a dictionary built by `to_dict` holds. */
  datatype Json = JInt(i: int) | JString(s: string) | JBool(b: bool) | JNull

  /** The keys of `to_dict`. */
  const DictKeys: set<string> :=
    {"id", "email", "name", "role", "company_id", "is_active", "created_at", "last_login"}

  /** `to_dict()`. */
  function ToDict(u: User): (d: map<string, Json>)
    ensures d.Keys == DictKeys
    ensures d["role"] == JString(RoleValue(u.role))
    ensures d["last_login"] == if u.lastLogin.Some? then JString(u.lastLogin.value.iso) else JNull
    ensures d["company_id"] == if u.companyId.Some? then JString(u.companyId.value) else JNull
  {
    map[
      "id" := JInt(u.id),
      "email" := JString(u.email),
      "name" := JString(u.name),
      "role" := JString(RoleValue(u.role)),
      "company_id" := if u.companyId.Some? then JString(u.companyId.value) else JNull,
      "is_active" := JBool(u.isActive),
      "created_at" := JString(u.createdAt.iso),
      "last_login" := if u.lastLogin.Some? then JString(u.lastLogin.value.iso) else JNull]
  }

  /** The dictionary never shows the password hash: two users that differ
      only in their hash have the same dictionary. */
  lemma ToDictHidesPassword(u: User, h: PasswordHash)
    ensures ToDict(u.(passwordHash := h)) == ToDict(u)
  {
  }

  /** The role can be read back from the dictionary. */
  lemma ToDictRoleRoundTrip(u: User, r: UserRole)
    requires ToDict(u)["role"] == JString(RoleValue(r))
    ensures u.role == r
  {
    RoleValueInjective(u.role, r);
  }
}
