/**
 * The authorisation ladder both routers run for the route they dispatch to
 * (dist/server.js lines 447-509 and 546-607): whether the user is looked up
 * at all, then `auth: 'user'`, then `auth: 'admin'`, then the route's
 * required roles, each step short-circuiting with a denial.
 */
module AccessControl {
  import opened Js
  import opened Roles

  /** A route's `auth` setting; anything but `'user'` or `'admin'` is public. */
  datatype Auth = AuthPublic | AuthUser | AuthAdmin

  function ParseAuth(auth: JsValue): Auth {
    if auth == JStr("user") then AuthUser
    else if auth == JStr("admin") then AuthAdmin
    else AuthPublic
  }

  /** Why a request is turned away: no user (401) or not allowed (403). */
  datatype Denial = Unauthorized | Forbidden

  /** `shouldResolveUser`: the router calls `getUser` only for such routes. */
  predicate ShouldResolveUser(resolveUser: JsValue, auth: Auth, routeRoles: set<string>, hasCanAccess: bool) {
    Truthy(resolveUser) || auth == AuthUser || auth == AuthAdmin || |routeRoles| > 0 || hasCanAccess
  }

  /** `readUserRoles`: the roles of a signed-in user, none without one. */
  function UserRoles(user: JsValue, readRoles: Option<JsValue -> JsValue>): (r: set<string>)
    ensures !Truthy(user) ==> r == {}
    ensures Truthy(user) ==> r == GetRoleSet(user, readRoles)
  {
    if Truthy(user) then GetRoleSet(user, readRoles) else {}
  }

  /** The route needs a signed-in user. */
  predicate NeedsUser(auth: Auth, routeRoles: set<string>) {
    auth != AuthPublic || routeRoles != {}
  }

  /** The user holds what the route demands: an admin role on admin routes, and
      one of the route's roles when it lists any. */
  predicate RolesSatisfied(auth: Auth, routeRoles: set<string>, adminRoles: set<string>, userRoles: set<string>) {
    (auth == AuthAdmin ==> HasRequiredRole(userRoles, adminRoles)) && HasRequiredRole(userRoles, routeRoles)
  }

  /** The ladder of checks before `canAccess`, in the source's order. */
  function CheckAccess(auth: Auth, routeRoles: set<string>, adminRoles: set<string>,
                       user: JsValue, userRoles: set<string>): (r: Option<Denial>)
    ensures r == Some(Unauthorized) <==> NeedsUser(auth, routeRoles) && !Truthy(user)
    ensures r == Some(Forbidden) <==>
              Truthy(user) && !RolesSatisfied(auth, routeRoles, adminRoles, userRoles)
    ensures r == None <==>
              (!NeedsUser(auth, routeRoles) || Truthy(user)) &&
              (Truthy(user) ==> RolesSatisfied(auth, routeRoles, adminRoles, userRoles))
  {
    if auth == AuthUser && !Truthy(user) then Some(Unauthorized)
    else if auth == AuthAdmin && !Truthy(user) then Some(Unauthorized)
    else if auth == AuthAdmin && !HasRequiredRole(userRoles, adminRoles) then Some(Forbidden)
    else if |routeRoles| > 0 && !Truthy(user) then Some(Unauthorized)
    else if |routeRoles| > 0 && !HasRequiredRole(userRoles, routeRoles) then Some(Forbidden)
    else None
  }

  /** Every route that can deny for want of a user also looks the user up, so a
      denial never comes from a lookup that was skipped. */
  lemma DenialNeedsLookup(resolveUser: JsValue, auth: Auth, routeRoles: set<string>, hasCanAccess: bool,
                          adminRoles: set<string>, user: JsValue, userRoles: set<string>)
    requires CheckAccess(auth, routeRoles, adminRoles, user, userRoles).Some?
    ensures ShouldResolveUser(resolveUser, auth, routeRoles, hasCanAccess)
  {
  }

  /** A route that skips the lookup passes the ladder with the `null` user. */
  lemma SkippedLookupPasses(resolveUser: JsValue, auth: Auth, routeRoles: set<string>, hasCanAccess: bool,
                            adminRoles: set<string>)
    requires !ShouldResolveUser(resolveUser, auth, routeRoles, hasCanAccess)
    ensures CheckAccess(auth, routeRoles, adminRoles, JNull, {}) == None
  {
  }

  /** Passing the ladder on an admin route means a signed-in user holding an
      admin role (or an empty admin role list). */
  lemma AdminGrantNeedsAdminRole(routeRoles: set<string>, adminRoles: set<string>,
                                 user: JsValue, userRoles: set<string>)
    requires CheckAccess(AuthAdmin, routeRoles, adminRoles, user, userRoles) == None
    ensures Truthy(user)
    ensures adminRoles == {} || userRoles * adminRoles != {}
    ensures routeRoles == {} || userRoles * routeRoles != {}
  {
    HasRequiredRoleIsIntersection(userRoles, adminRoles);
    HasRequiredRoleIsIntersection(userRoles, routeRoles);
  }
}
