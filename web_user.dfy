/** The portal's user account: a write-only `password` property that
    validates the new password before storing its salted hash, password
    verification against that hash, the display name and the admin test,
    and the defaults a new account gets. */
module WebUser {
  import opened Common
  import opened Text
  import opened PasswordPolicy
  import opened Hashing

  /** The role a new account gets when none is given. */
  const DefaultRole := "agent"

  /** What assigning `password` does: nothing to report, or the `ValueError`
      it raises. */
  datatype SetOutcome = Stored | ValueError(message: string)

  /** What reading `password` does: it always raises `AttributeError`. */
  datatype ReadOutcome = Value(password: string) | AttributeError(message: string)

  class User {
    var email: string
    var passwordHash: Option<PasswordHash>
    var firstName: string
    var lastName: string
    var role: string
    var isActive: bool

    /** A new account: no password yet, the default role unless one is
        given, and active. */
    constructor (email: string, firstName: string, lastName: string, givenRole: Option<string>)
      ensures this.email == email && this.firstName == firstName && this.lastName == lastName
      ensures passwordHash.None? && isActive
      ensures role == if givenRole.Some? then givenRole.value else DefaultRole
      ensures givenRole.None? ==> !IsAdmin()
    {
      this.email := email;
      this.firstName := firstName;
      this.lastName := lastName;
      passwordHash := None;
      role := if givenRole.Some? then givenRole.value else DefaultRole;
      isActive := true;
    }

    /** The `password` setter: an invalid password raises `ValueError` with
        the validator's messages, one per line, and keeps the old hash; a
        valid one replaces the hash by a fresh one made with `salt`. */
    method SetPassword(password: string, digest: Digest, salt: string) returns (outcome: SetOutcome)
      modifies this
      ensures PasswordErrors(password) != [] ==>
                outcome == ValueError(Join(PasswordErrors(password), "\n")) &&
                passwordHash == old(passwordHash)
      ensures PasswordErrors(password) == [] ==>
                outcome == Stored && passwordHash == Some(HashPassword(digest, salt, password))
      ensures outcome == Stored ==> VerifyPassword(digest, password) == Some(true)
      ensures email == old(email) && firstName == old(firstName) && lastName == old(lastName)
      ensures role == old(role) && isActive == old(isActive)
    {
      var isValid, errors := ValidatePassword(password);
      if !isValid {
        outcome := ValueError(Join(errors, "\n"));
        return;
      }
      passwordHash := Some(HashPassword(digest, salt, password));
      outcome := Stored;
    }

    /** The `password` getter. */
    function ReadPassword(): (r: ReadOutcome)
      ensures r.AttributeError? && r.message == "password is not a readable attribute"
    {
      AttributeError("password is not a readable attribute")
    }

    /** `verify_password(password)`; without a stored hash the check fails
        with an error, written `None`. */
    function VerifyPassword(digest: Digest, password: string): (r: Option<bool>)
      reads this
      ensures r.None? <==> passwordHash.None?
      ensures r == Some(true) <==> passwordHash.Some? && CheckPassword(digest, passwordHash.value, password)
    {
      if passwordHash.None? then None else Some(CheckPassword(digest, passwordHash.value, password))
    }

    /** `full_name`: the first name, a space, the last name. */
    function FullName(): (name: string)
      reads this
      ensures |name| == |firstName| + 1 + |lastName|
      ensures name[..|firstName|] == firstName && name[|firstName|] == ' '
      ensures name[|firstName| + 1..] == lastName
    {
      firstName + " " + lastName
    }

    /** `is_admin`: the exact, case-sensitive role 'admin', which the
        default role never is. */
    function IsAdmin(): (admin: bool)
      reads this
      ensures admin <==> role == "admin"
      ensures admin ==> role != DefaultRole
    {
      role == "admin"
    }
  }

  /** When neither name has a space, splitting the full name at the space
      gives the two names back. */
  lemma FullNameSplits(u: User)
    requires ' ' !in u.firstName && ' ' !in u.lastName
    ensures Split(u.FullName(), ' ') == [u.firstName, u.lastName]
  {
    var parts := [u.firstName, u.lastName];
    assert parts[1..] == [u.lastName];
    assert Join(parts, [' ']) == u.FullName();
    SplitJoin(parts, ' ');
  }

  /** After a valid password is stored, a different password is refused,
      provided the digest tells passwords apart. */
  lemma OnlyStoredPasswordVerifies(u: User, digest: Digest, salt: string, password: string, other: string)
    requires Injective(digest)
    requires u.passwordHash == Some(HashPassword(digest, salt, password))
    ensures u.VerifyPassword(digest, other) == Some(true) <==> other == password
  {
    CheckRejectsOtherPasswords(digest, salt, password, other);
  }
}
