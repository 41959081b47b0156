/**
 * `requireRole` of backend/src/middleware/roleMiddleware.ts and the three
 * gates built from it, together with the gate each hero route puts in front
 * of its handler (backend/src/routes/heroRoutes.ts). A request either gets a
 * 401, gets a 403, or is passed on to `next`: the outcome is one value, so
 * exactly one of the three happens.
 */
module RoleMiddleware {

  import opened Common
  import opened HeroTypes

  /** `req.user` once the authentication middleware has run. */
  datatype AuthUser = AuthUser(role: string)

  /** A response written by the gate, or the call to `next()`. */
  datatype GateOutcome = Reject(status: int, message: string) | Next

  const NoUserMessage: string := "Access denied. No user authenticated."
  const ForbiddenMessage: string := "Access denied. Insufficient permissions."

  /** `requireRole(roles)(req, res, next)`. */
  function RequireRole(roles: seq<string>, user: Option<AuthUser>): (r: GateOutcome)
    ensures r == Reject(401, NoUserMessage) <==> user.None?
    ensures r == Reject(403, ForbiddenMessage) <==> user.Some? && user.value.role !in roles
    ensures r.Next? <==> user.Some? && user.value.role in roles
  {
    if user.None? then Reject(401, NoUserMessage)
    else if user.value.role !in roles then Reject(403, ForbiddenMessage)
    else Next
  }

  const AdminRoles: seq<string> := ["admin"]
  const EditorRoles: seq<string> := ["admin", "editor"]
  const ViewerRoles: seq<string> := ["admin", "editor", "viewer"]

  function RequireAdmin(user: Option<AuthUser>): GateOutcome {
    RequireRole(AdminRoles, user)
  }

  function RequireEditor(user: Option<AuthUser>): GateOutcome {
    RequireRole(EditorRoles, user)
  }

  function RequireViewer(user: Option<AuthUser>): GateOutcome {
    RequireRole(ViewerRoles, user)
  }

  /** Who each gate lets through: only admin; admin and editor; every one of
      the three roles and nothing else. */
  lemma GateAdmission(role: string)
    ensures RequireAdmin(Some(AuthUser(role))).Next? <==> role == "admin"
    ensures RequireEditor(Some(AuthUser(role))).Next? <==> role == "admin" || role == "editor"
    ensures RequireViewer(Some(AuthUser(role))).Next? <==>
      role == "admin" || role == "editor" || role == "viewer"
  {
  }

  /** The gates are nested: each admits everyone the stricter one admits, and
      the looser one turns away a viewer that it must. */
  lemma GatesMonotone(user: Option<AuthUser>)
    ensures RequireAdmin(user).Next? ==> RequireEditor(user).Next?
    ensures RequireEditor(user).Next? ==> RequireViewer(user).Next?
    ensures user == Some(AuthUser("viewer")) ==>
      RequireViewer(user).Next? && !RequireEditor(user).Next?
  {
  }

  /** Every account role passes the viewer gate. */
  lemma EveryRoleIsViewer(r: Role)
    ensures RequireViewer(Some(AuthUser(RoleName(r)))).Next?
  {
  }

  // ---------------------------------------------------------------------
  // The hero routes
  // ---------------------------------------------------------------------

  datatype HeroRoute = ListHeroes | GetHero | CreateHero | UpdateHero | DeleteHero

  /** The role gate in front of each hero route. */
  function RouteGate(route: HeroRoute, user: Option<AuthUser>): GateOutcome {
    match route
    case ListHeroes => RequireViewer(user)
    case GetHero => RequireViewer(user)
    case CreateHero => RequireEditor(user)
    case UpdateHero => RequireEditor(user)
    case DeleteHero => RequireAdmin(user)
  }

  /** Reading is open to every role, writing to admin and editor, deleting to
      admin alone. */
  lemma RouteAccess(route: HeroRoute, r: Role)
    ensures RouteGate(route, Some(AuthUser(RoleName(r)))).Next? <==>
      match route
      case ListHeroes => true
      case GetHero => true
      case CreateHero => r != Viewer
      case UpdateHero => r != Viewer
      case DeleteHero => r == Admin
  {
  }
}
