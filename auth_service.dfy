/** The back end's account service over the user table: logging in with an
    e-mail (looked up lower-cased) and a password, creating a user unless
    the e-mail is taken, updating attributes (the password through
    `set_password`, unknown keys ignored), deactivating and reactivating,
    and listing users by role or by company. The table is a map from id to
    user; the database gives a new row the next free id and refuses two
    rows with the same e-mail. */
module AuthService {
  import opened Common
  import opened Text
  import Hashing
  import opened BackendUser

  /** No two users share an e-mail (the column is unique). */
  ghost predicate EmailsUnique(users: map<int, User>)
  {
    forall a, b :: a in users && b in users && users[a].email == users[b].email ==> a == b
  }

  /** Some user other than `id` has the e-mail. */
  predicate EmailTakenByOther(users: map<int, User>, id: int, email: string)
  {
    exists other :: other in users && other != id && users[other].email == email
  }

  /** Some user has the e-mail. */
  predicate EmailTaken(users: map<int, User>, email: string)
  {
    exists id :: id in users && users[id].email == email
  }

  /** The user `id` can log in with `email` and `password`: the lower-cased
      e-mail is theirs and the password checks against their hash. */
  ghost predicate CanLogIn(users: map<int, User>, digest: Hashing.Digest, email: string, password: string, id: int)
  {
    id in users && users[id].email == Lower(email) && CheckPassword(users[id], digest, password)
  }

  // ---------------------------------------------------------------- attribute updates

  /** One keyword argument of `update_user`. The keys that name a column of
      the user are listed; any other key is `Unknown`. */
  datatype Change =
    | Password(password: string)
    | PasswordHashField(hash: Hashing.PasswordHash)
    | Email(email: string)
    | Name(name: string)
    | Role(role: UserRole)
    | CompanyId(companyId: Option<string>)
    | IsActive(active: bool)
    | CreatedAt(createdAt: DateTime)
    | LastLogin(lastLogin: Option<DateTime>)
    | Unknown(key: string)

  /** One step of the update loop: 'password' goes through `set_password`,
      an attribute the user has is set, an unknown key is ignored. */
  function ApplyChange(u: User, c: Change, digest: Hashing.Digest, salt: string): User
  {
    match c
    case Password(p) => SetPassword(u, digest, salt, p)
    case PasswordHashField(h) => u.(passwordHash := h)
    case Email(e) => u.(email := e)
    case Name(n) => u.(name := n)
    case Role(r) => u.(role := r)
    case CompanyId(c) => u.(companyId := c)
    case IsActive(a) => u.(isActive := a)
    case CreatedAt(t) => u.(createdAt := t)
    case LastLogin(t) => u.(lastLogin := t)
    case Unknown(_) => u
  }

  /** The user after the loop has handled every change, in order. */
  function ApplyChanges(u: User, changes: seq<Change>, digest: Hashing.Digest, salt: string): (v: User)
    ensures v.id == u.id
    decreases |changes|
  {
    if changes == [] then u
    else ApplyChange(ApplyChanges(u, changes[..|changes| - 1], digest, salt), changes[|changes| - 1], digest, salt)
  }

  /** Handling one more change is one more step. */
  lemma ApplyChangesSnoc(u: User, changes: seq<Change>, k: int, digest: Hashing.Digest, salt: string)
    requires 0 <= k < |changes|
    ensures ApplyChanges(u, changes[..k + 1], digest, salt) ==
              ApplyChange(ApplyChanges(u, changes[..k], digest, salt), changes[k], digest, salt)
  {
    assert changes[..k + 1][..k] == changes[..k];
  }

  /** A change whose key names an attribute of the user. */
  predicate Known(c: Change)
  {
    !c.Unknown?
  }

  /** Unknown keys are ignored: dropping them changes nothing. */
  lemma {:induction false} UnknownKeysIgnored(u: User, changes: seq<Change>, digest: Hashing.Digest, salt: string)
    ensures ApplyChanges(u, Filter(changes, Known), digest, salt) ==
              ApplyChanges(u, changes, digest, salt)
    decreases |changes|
  {
    if changes != [] {
      var n := |changes| - 1;
      var last := changes[n];
      UnknownKeysIgnored(u, changes[..n], digest, salt);
      ExtendBoth(u, Filter(changes[..n], Known), changes[..n], last, digest, salt);
      assert changes[..n] + [last] == changes;
      FilterConcat(changes[..n], [last], Known);
    }
  }

  /** One more change after two lists that end in the same user: kept when
      known, dropped when not, the two still end in the same user. */
  lemma ExtendBoth(u: User, kept: seq<Change>, all: seq<Change>, last: Change, digest: Hashing.Digest, salt: string)
    requires ApplyChanges(u, kept, digest, salt) == ApplyChanges(u, all, digest, salt)
    ensures ApplyChanges(u, kept + Filter([last], Known), digest, salt) == ApplyChanges(u, all + [last], digest, salt)
  {
    FilterSingleton(last, Known);
    ApplyChangesAppend(u, all, last, digest, salt);
    if Known(last) {
      ApplyChangesAppend(u, kept, last, digest, salt);
    } else {
      assert kept + [] == kept;
    }
  }

  /** Handling a list with one more change at the end is one more step. */
  lemma ApplyChangesAppend(u: User, changes: seq<Change>, last: Change, digest: Hashing.Digest, salt: string)
    ensures ApplyChanges(u, changes + [last], digest, salt) ==
              ApplyChange(ApplyChanges(u, changes, digest, salt), last, digest, salt)
  {
    assert (changes + [last])[..|changes|] == changes;
  }

  /** Changes that set the stored hash. */
  predicate SetsHash(c: Change)
  {
    c.Password? || c.PasswordHashField?
  }

  /** The password given last wins: if no later change sets the hash, the
      updated user's password checks. */
  lemma {:induction false} LastPasswordChecks(u: User, changes: seq<Change>, k: int, digest: Hashing.Digest, salt: string)
    requires 0 <= k < |changes| && changes[k].Password?
    requires forall j :: k < j < |changes| ==> !SetsHash(changes[j])
    ensures CheckPassword(ApplyChanges(u, changes, digest, salt), digest, changes[k].password)
    decreases |changes|
  {
    var n := |changes| - 1;
    if k < n {
      LastPasswordChecks(u, changes[..n], k, digest, salt);
    } else {
      SetThenCheck(ApplyChanges(u, changes[..n], digest, salt), digest, salt, changes[k].password, changes[k].password);
    }
  }

  /** Without a change that sets it, the hash, and so every password check,
      stays as it was. */
  lemma {:induction false} HashKeptWithoutPasswordChange(u: User, changes: seq<Change>, digest: Hashing.Digest, salt: string)
    requires forall j :: 0 <= j < |changes| ==> !SetsHash(changes[j])
    ensures ApplyChanges(u, changes, digest, salt).passwordHash == u.passwordHash
    decreases |changes|
  {
    if changes != [] {
      HashKeptWithoutPasswordChange(u, changes[..|changes| - 1], digest, salt);
    }
  }

  /** Without an 'email' key the e-mail stays as it was. */
  lemma {:induction false} EmailKeptWithoutEmailChange(u: User, changes: seq<Change>, digest: Hashing.Digest, salt: string)
    requires forall j :: 0 <= j < |changes| ==> !changes[j].Email?
    ensures ApplyChanges(u, changes, digest, salt).email == u.email
    decreases |changes|
  {
    if changes != [] {
      EmailKeptWithoutEmailChange(u, changes[..|changes| - 1], digest, salt);
    }
  }

  /** `update_user` stores a new e-mail as given, without lower-casing it;
      a user whose stored e-mail has a capital letter can then no longer
      log in, because the login looks up the lower-cased address. */
  lemma MixedCaseEmailCannotLogIn(users: map<int, User>, digest: Hashing.Digest, id: int, email: string, password: string)
    requires id in users && Lower(users[id].email) != users[id].email
    ensures !CanLogIn(users, digest, email, password, id)
  {
    LowerIdempotent(email);
  }

  /** `users` with the user `id`, if any, set active or inactive. */
  function SetActive(users: map<int, User>, id: int, active: bool): (m: map<int, User>)
    ensures m.Keys == users.Keys
    ensures forall other :: other in users && other != id ==> m[other] == users[other]
    ensures id in users ==> m[id] == users[id].(isActive := active)
  {
    if id in users then users[id := users[id].(isActive := active)] else users
  }

  /** Deactivating or reactivating twice is doing it once, and reactivating
      a user who was active before the deactivation restores the table. */
  lemma SetActiveLaws(users: map<int, User>, id: int, active: bool)
    ensures SetActive(SetActive(users, id, active), id, active) == SetActive(users, id, active)
    ensures id in users && users[id].isActive ==> SetActive(SetActive(users, id, false), id, true) == users
    ensures id in users && !users[id].isActive ==> SetActive(SetActive(users, id, true), id, false) == users
  {
    if id in users {
      assert users[id].(isActive := users[id].isActive) == users[id];
    }
  }

  /** `authenticate_user` does not look at `is_active`: deactivating a user
      does not change who can log in. */
  lemma DeactivatedUserStillLogsIn(users: map<int, User>, digest: Hashing.Digest, id: int, email: string, password: string, other: int)
    ensures CanLogIn(SetActive(users, id, false), digest, email, password, other) <==>
              CanLogIn(users, digest, email, password, other)
  {
  }

  /** What `update_user` reports. */
  datatype UpdateResult = Updated(user: User) | NotFound | IntegrityError

  /** The service over the user table. */
  class Service {
    var users: map<int, User>
    var nextId: int

    /** Every user is stored under its own id, below the next id the
        database will hand out, and no two users share an e-mail. */
    ghost predicate Valid()
      reads this
    {
      (forall id :: id in users ==> users[id].id == id && id < nextId) && EmailsUnique(users)
    }

    /** An empty table whose first row gets id 1. */
    constructor ()
      ensures users == map[] && nextId == 1
      ensures Valid()
    {
      users := map[];
      nextId := 1;
    }

    /** `authenticate_user(email, password)`. */
    method AuthenticateUser(email: string, password: string, digest: Hashing.Digest) returns (r: Option<User>)
      requires Valid()
      ensures r.Some? <==> exists id :: CanLogIn(users, digest, email, password, id)
      ensures r.Some? ==> CanLogIn(users, digest, email, password, r.value.id) && users[r.value.id] == r.value
    {
      var lowered := Lower(email);
      if EmailTaken(users, lowered) {
        var id :| id in users && users[id].email == lowered;
        var user := users[id];
        if CheckPassword(user, digest, password) {
          assert CanLogIn(users, digest, email, password, id);
          return Some(user);
        }
      }
      return None;
    }

    /** `create_user(...)` at time `now`, with `salt` from `gensalt()`. A
        taken e-mail (compared lower-cased) gives `(None, False)` and
        changes nothing; otherwise the new user is stored under the next id
        and returned with `True`. */
    method CreateUser(email: string, password: string, name: string, role: UserRole, companyId: Option<string>,
                      digest: Hashing.Digest, salt: string, now: DateTime) returns (user: Option<User>, created: bool)
      requires Valid()
      modifies this
      ensures Valid()
      ensures created <==> !EmailTaken(old(users), Lower(email))
      ensures !created ==> user.None? && users == old(users) && nextId == old(nextId)
      ensures created ==>
                old(nextId) !in old(users) &&
                user == Some(NewUser(old(nextId), email, password, name, role, companyId, digest, salt, now)) &&
                users == old(users)[old(nextId) := user.value] && nextId == old(nextId) + 1
      ensures created ==> |users.Keys| == |old(users).Keys| + 1
    {
      if EmailTaken(users, Lower(email)) {
        return None, false;
      }
      var u := NewUser(nextId, email, password, name, role, companyId, digest, salt, now);
      assert nextId !in users;
      users := users[nextId := u];
      nextId := nextId + 1;
      return Some(u), true;
    }

    /** `update_user(user_id, **changes)`, with `salt` from `gensalt()` for
        a password change. An unknown id gives `(None, False)`; an e-mail
        another user has makes the commit fail and the table is left as it
        was; otherwise the user is replaced by the updated one. */
    method UpdateUser(userId: int, changes: seq<Change>, digest: Hashing.Digest, salt: string) returns (r: UpdateResult)
      requires Valid()
      modifies this
      ensures Valid()
      ensures nextId == old(nextId)
      ensures userId !in old(users) ==> r == NotFound && users == old(users)
      ensures userId in old(users) ==>
                var updated := ApplyChanges(old(users)[userId], changes, digest, salt);
                if EmailTakenByOther(old(users), userId, updated.email) then
                  r == IntegrityError && users == old(users)
                else
                  r == Updated(updated) && users == old(users)[userId := updated]
    {
      if userId !in users {
        return NotFound;
      }
      var original := users[userId];
      var user := original;
      var k := 0;
      while k < |changes|
        invariant 0 <= k <= |changes|
        invariant user == ApplyChanges(original, changes[..k], digest, salt)
        invariant users == old(users) && nextId == old(nextId)
      {
        ApplyChangesSnoc(original, changes, k, digest, salt);
        user := ApplyChange(user, changes[k], digest, salt);
        k := k + 1;
      }
      assert changes[..k] == changes;
      if EmailTakenByOther(users, userId, user.email) {
        return IntegrityError;
      }
      users := users[userId := user];
      return Updated(user);
    }

    /** `deactivate_user(user_id)`. */
    method DeactivateUser(userId: int) returns (done: bool)
      requires Valid()
      modifies this
      ensures Valid()
      ensures done <==> userId in old(users)
      ensures users == SetActive(old(users), userId, false) && nextId == old(nextId)
    {
      if userId !in users {
        return false;
      }
      users := users[userId := users[userId].(isActive := false)];
      return true;
    }

    /** `reactivate_user(user_id)`. */
    method ReactivateUser(userId: int) returns (done: bool)
      requires Valid()
      modifies this
      ensures Valid()
      ensures done <==> userId in old(users)
      ensures users == SetActive(old(users), userId, true) && nextId == old(nextId)
    {
      if userId !in users {
        return false;
      }
      users := users[userId := users[userId].(isActive := true)];
      return true;
    }

    /** `get_users_by_role(role)`: active or not. */
    function UsersByRole(role: UserRole): (r: set<User>)
      reads this
      ensures forall u :: u in r <==> u in users.Values && u.role == role
    {
      set u | u in users.Values && u.role == role
    }

    /** `get_users_by_company(company_id)`. */
    function UsersByCompany(companyId: Option<string>): (r: set<User>)
      reads this
      ensures forall u :: u in r <==> u in users.Values && u.companyId == companyId
    {
      set u | u in users.Values && u.companyId == companyId
    }
  }

  /** Every user has exactly one role, so the three role lists split the
      table between them. */
  lemma RolesPartitionUsers(s: Service)
    ensures s.UsersByRole(Admin) + s.UsersByRole(InsuranceOfficer) + s.UsersByRole(Police) == s.users.Values
    ensures s.UsersByRole(Admin) * s.UsersByRole(InsuranceOfficer) == {}
    ensures s.UsersByRole(Admin) * s.UsersByRole(Police) == {}
    ensures s.UsersByRole(InsuranceOfficer) * s.UsersByRole(Police) == {}
  {
  }
}
