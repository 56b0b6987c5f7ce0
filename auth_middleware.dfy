/** The access rules the back end's route decorators apply once the caller's
    token has been checked and the user it names has been looked up: 401 for
    a missing or inactive user, 403 for a user whose role (or company) does
    not fit, and otherwise the route runs. */
module AuthMiddleware {
  import opened Common
  import opened BackendUser

  /** The decorator's answer: an error response, or running the route. */
  datatype Decision = Reject(status: int, error: string) | Proceed

  const InvalidUser := Reject(401, "Invalid or inactive user")
  const InsufficientPermissions := Reject(403, "Insufficient permissions")
  const NoCompany := Reject(403, "User not associated with any company")
  const OtherCompany := Reject(403, "Access denied to other company data")
  const AdminOnly := Reject(403, "Admin access required")
  const PoliceOnly := Reject(403, "Police officer access required")

  /** The argument of `role_required`: a list of roles or a single one. */
  datatype RoleSpec = OneOf(roles: seq<UserRole>) | Single(role: UserRole)

  /** The user looked up from the token: none, or an inactive one. */
  predicate Unusable(user: Option<User>)
  {
    user.None? || !user.value.isActive
  }

  /** The role values of a list of roles. */
  function RoleValues(roles: seq<UserRole>): (values: seq<string>)
    ensures |values| == |roles|
    ensures forall k :: 0 <= k < |roles| ==> values[k] == RoleValue(roles[k])
  {
    seq(|roles|, k requires 0 <= k < |roles| => RoleValue(roles[k]))
  }

  /** `role_required(roles)`. */
  function RoleRequired(roles: RoleSpec, user: Option<User>): (d: Decision)
    ensures Unusable(user) ==> d == InvalidUser
    ensures d.Reject? ==> d == InvalidUser || d == InsufficientPermissions
  {
    if Unusable(user) then InvalidUser
    else match roles
      case OneOf(rs) => if RoleValue(user.value.role) !in RoleValues(rs) then InsufficientPermissions else Proceed
      case Single(r) => if user.value.role != r then InsufficientPermissions else Proceed
  }

  /** For an active user, the list form refuses exactly the roles not in the
      list: comparing role values is comparing roles. */
  lemma RoleListDecision(rs: seq<UserRole>, user: User)
    requires user.isActive
    ensures RoleRequired(OneOf(rs), Some(user)) == if user.role in rs then Proceed else InsufficientPermissions
  {
    if user.role in rs {
      var k :| 0 <= k < |rs| && rs[k] == user.role;
      assert RoleValues(rs)[k] == RoleValue(user.role);
    } else {
      forall k | 0 <= k < |rs|
        ensures RoleValues(rs)[k] != RoleValue(user.role)
      {
        RoleValueInjective(rs[k], user.role);
      }
    }
  }

  /** For an active user, the single-role form refuses exactly the other
      roles, and so agrees with the one-element list. */
  lemma SingleRoleDecision(r: UserRole, user: User)
    requires user.isActive
    ensures RoleRequired(Single(r), Some(user)) == if user.role == r then Proceed else InsufficientPermissions
    ensures RoleRequired(Single(r), Some(user)) == RoleRequired(OneOf([r]), Some(user))
  {
    RoleListDecision([r], user);
  }

  /** Python truthiness of an optional string. */
  predicate Truthy(s: Option<string>)
  {
    s.Some? && s.value != ""
  }

  /** `company_required()`; `requested` is the route's `company_id`
      argument, if it has one. */
  function CompanyRequired(user: Option<User>, requested: Option<string>): (d: Decision)
    ensures Unusable(user) ==> d == InvalidUser
    ensures d.Reject? ==> d == InvalidUser || d == NoCompany || d == OtherCompany
    ensures !Unusable(user) && user.value.role == InsuranceOfficer && !Truthy(user.value.companyId) ==>
              d == NoCompany
    ensures (!Unusable(user) && user.value.role == InsuranceOfficer && Truthy(user.value.companyId) &&
             Truthy(requested) && requested != user.value.companyId) ==> d == OtherCompany
  {
    if Unusable(user) then InvalidUser
    else if user.value.role == Admin then Proceed
    else if user.value.role == InsuranceOfficer then
      if !Truthy(user.value.companyId) then NoCompany
      else if Truthy(requested) && Some(requested.value) != user.value.companyId then OtherCompany
      else Proceed
    else Proceed
  }

  /** An active insurance officer with a company passes exactly when the
      route names no company or names theirs. */
  lemma OfficerCompanyDecision(user: User, requested: Option<string>)
    requires user.isActive && user.role == InsuranceOfficer && Truthy(user.companyId)
    ensures CompanyRequired(Some(user), requested).Proceed? <==>
              !Truthy(requested) || requested == user.companyId
  {
  }

  /** Only insurance officers are ever refused by the company check once
      they are active. */
  lemma CompanyCheckOnlyLimitsOfficers(user: User, requested: Option<string>)
    requires user.isActive && user.role != InsuranceOfficer
    ensures CompanyRequired(Some(user), requested) == Proceed
  {
  }

  /** `admin_required`. */
  function AdminRequired(user: Option<User>): (d: Decision)
    ensures Unusable(user) ==> d == InvalidUser
    ensures !Unusable(user) ==> (d == Proceed <==> user.value.role == Admin)
    ensures d.Reject? ==> d == InvalidUser || d == AdminOnly
  {
    if Unusable(user) then InvalidUser
    else if user.value.role != Admin then AdminOnly
    else Proceed
  }

  /** `police_required`. */
  function PoliceRequired(user: Option<User>): (d: Decision)
    ensures Unusable(user) ==> d == InvalidUser
    ensures !Unusable(user) ==> (d == Proceed <==> user.value.role == Police)
    ensures d.Reject? ==> d == InvalidUser || d == PoliceOnly
  {
    if Unusable(user) then InvalidUser
    else if user.value.role != Police then PoliceOnly
    else Proceed
  }

  /** Being active comes before any role: an inactive administrator is
      refused with 401 by every decorator, and an admin who is active passes
      all of them but the police one. */
  lemma InactiveAdminIsUnauthorized(user: User, roles: RoleSpec, requested: Option<string>)
    requires user.role == Admin
    ensures !user.isActive ==>
              RoleRequired(roles, Some(user)).status == 401 && CompanyRequired(Some(user), requested).status == 401 &&
              AdminRequired(Some(user)).status == 401 && PoliceRequired(Some(user)).status == 401
    ensures user.isActive ==>
              CompanyRequired(Some(user), requested) == Proceed && AdminRequired(Some(user)) == Proceed &&
              PoliceRequired(Some(user)) == PoliceOnly
  {
  }
}
