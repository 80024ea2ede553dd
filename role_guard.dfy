/** `RoleGuard`: renders its children for a signed-in user whose role is allowed,
    otherwise the fallback if one is given, otherwise the "Access Denied" view. */
module RoleGuard {
  import opened Wrappers
  import opened Types

  /** What the guard renders; `N` stands for the fallback's React node. */
  datatype View<N> = Children | Fallback(node: N) | AccessDenied

  /** A user exists and `allowedRoles` lists their role. */
  predicate Allowed(user: Option<User>, allowedRoles: seq<UserRole>)
  {
    user.Some? && user.value.role in allowedRoles
  }

  /** The guard's decision. `fallback` is `None` when it is undefined or falsy. */
  function Guard<N>(user: Option<User>, allowedRoles: seq<UserRole>, fallback: Option<N>): View<N>
  {
    if user.None? || user.value.role !in allowedRoles then
      if fallback.Some? then Fallback(fallback.value) else AccessDenied
    else Children
  }

  /** Children are rendered exactly when a user exists and their role is allowed;
      a refused visitor sees the fallback if one is given and the denied view
      otherwise. */
  lemma GuardDecision<N>(user: Option<User>, allowedRoles: seq<UserRole>, fallback: Option<N>)
    ensures Guard(user, allowedRoles, fallback).Children? <==> Allowed(user, allowedRoles)
    ensures !Allowed(user, allowedRoles) && fallback.Some? ==>
      Guard(user, allowedRoles, fallback) == Fallback(fallback.value)
    ensures !Allowed(user, allowedRoles) && fallback.None? ==>
      Guard(user, allowedRoles, fallback) == AccessDenied
  {
  }

  /** Without a user, access is denied whatever the allowed roles are; an empty
      role list denies everyone. */
  lemma NoUserOrNoRolesDenies<N>(user: Option<User>, allowedRoles: seq<UserRole>, fallback: Option<N>)
    ensures user.None? ==> !Guard(user, allowedRoles, fallback).Children?
    ensures allowedRoles == [] ==> !Guard(user, allowedRoles, fallback).Children?
  {
  }

  /** Adding roles never revokes access. */
  lemma MoreRolesNeverRevoke<N>(user: Option<User>, fewer: seq<UserRole>, more: seq<UserRole>, fallback: Option<N>)
    requires forall r :: r in fewer ==> r in more
    ensures Guard(user, fewer, fallback).Children? ==> Guard(user, more, fallback).Children?
  {
  }
}
