/**
 * The role gate placed in front of every schedule route: a request passes to
 * the next handler only when it carries a user whose role is one of the roles
 * the route allows; otherwise the response status is set to 403 and an error
 * is thrown.
 */
module RoleGate {
  import opened Wrappers

  /** The part of `req.user` the gate reads; a token without a role leaves it undefined. */
  datatype User = User(role: Option<string>)

  /** Either `next()` is called, or the status is set and the error is thrown. */
  datatype Verdict = Next | Forbidden(status: int, message: string)

  const ForbiddenStatus := 403
  const ForbiddenMessage := "Forbidden, You are not allowed to do the specified task"

  /** Array.prototype.includes on a list of role names. */
  function Includes(roles: seq<string>, role: string): (b: bool)
    ensures b <==> role in roles
  {
    if roles == [] then false
    else roles[0] == role || Includes(roles[1..], role)
  }

  /** The middleware built by `checkrole(...allowed)`, applied to a request. */
  function CheckRole(allowed: seq<string>, user: Option<User>): (v: Verdict)
    ensures v.Next? <==> user.Some? && user.value.role.Some? && user.value.role.value in allowed
    ensures v.Forbidden? ==> v.status == ForbiddenStatus && v.message == ForbiddenMessage
  {
    if user.None? || user.value.role.None? || !Includes(allowed, user.value.role.value) then
      Forbidden(ForbiddenStatus, ForbiddenMessage)
    else
      Next
  }

  /** Roles every schedule route allows. */
  const ScheduleRoles := ["admin", "superAdmin"]

  lemma AnonymousIsForbidden(allowed: seq<string>)
    ensures CheckRole(allowed, None) == Forbidden(403, "Forbidden, You are not allowed to do the specified task")
  {
  }

  lemma EmptyListForbidsEveryone(user: Option<User>)
    ensures CheckRole([], user).Forbidden?
  {
  }

  /** Allowing more roles never turns away a request that was let through. */
  lemma WiderListAdmitsMore(allowed: seq<string>, wider: seq<string>, user: Option<User>)
    requires forall r | r in allowed :: r in wider
    ensures CheckRole(allowed, user).Next? ==> CheckRole(wider, user).Next?
  {
  }

  /** Only the set of allowed roles matters, not their order or repetition. */
  lemma OnlyTheSetMatters(allowed: seq<string>, other: seq<string>, user: Option<User>)
    requires forall r :: r in allowed <==> r in other
    ensures CheckRole(allowed, user) == CheckRole(other, user)
  {
  }

  /** The schedule routes admit exactly the two administrative roles, compared case-sensitively. */
  lemma ScheduleRoutesGate(role: string)
    ensures CheckRole(ScheduleRoles, Some(User(Some(role)))).Next? <==> role == "admin" || role == "superAdmin"
  {
  }

  lemma CapitalisedRoleIsForbidden()
    ensures CheckRole(ScheduleRoles, Some(User(Some("Admin")))).Forbidden?
  {
    assert "Admin" != "admin" by { assert "Admin"[0] != "admin"[0]; }
    assert "Admin" != "superAdmin" by { assert |"Admin"| != |"superAdmin"|; }
  }
}
