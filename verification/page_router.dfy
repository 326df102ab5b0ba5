/**
 * `createModulePageRouter` (dist/server.js lines 537-623): the same table
 * walk and authorisation ladder as the API router, without a method
 * dimension. The first route matching the path decides; default denials and
 * the not-found case answer `null`, and `canAccess` counts by truthiness only.
 */
module PageRouter {
  import opened Js
  import opened RoutePaths
  import opened Roles
  import opened AccessControl
  import opened RouteScan

  /** What a page handler and `canAccess` receive. */
  datatype PageContext = PageContext(context: RouteContext, params: map<string, string>, user: JsValue)

  datatype PageRoute = PageRoute(
    path: Option<string>,
    auth: JsValue,
    roles: seq<JsValue>,
    resolveUser: JsValue,
    canAccess: Option<PageContext -> Outcome<JsValue>>,
    handler: PageContext -> Outcome<JsValue>)

  /** What the denial hooks receive: the handler context and the route. */
  datatype DeniedPage = DeniedPage(handlerContext: PageContext, route: PageRoute)

  datatype PageRouterOptions = PageRouterOptions(
    routes: seq<PageRoute>,
    readRoles: Option<JsValue -> JsValue>,
    adminRoles: Option<seq<JsValue>>,
    onUnauthorized: Option<DeniedPage -> Outcome<JsValue>>,
    onForbidden: Option<DeniedPage -> Outcome<JsValue>>,
    onNotFound: Option<RouteContext -> Outcome<JsValue>>)

  /** `compilePageRoutes`, one route. */
  datatype CompiledPageRoute = CompiledPageRoute(path: seq<Segment>, roles: set<string>)

  function CompilePageRoute(route: PageRoute): CompiledPageRoute {
    CompiledPageRoute(CompileRoutePath(route.path), NormalizeRoleValues(route.roles))
  }

  /** A page route takes every request whose path it matches, whatever the
      method: a route is hit exactly when its path matches, and no route
      contributes an allowed method. */
  function ProbePages(routes: seq<PageRoute>, slug: seq<string>): (r: seq<Probe>)
    ensures |r| == |routes|
    ensures forall i :: 0 <= i < |routes| ==>
              r[i] == Probe(MatchRoutePath(CompilePageRoute(routes[i]).path, slug), true, [])
    ensures forall i :: 0 <= i < |routes| ==> (Hit(r[i]) <==> PathHit(routes[i], slug))
    ensures forall m :: !Allows(r, m)
  {
    seq(|routes|, i requires 0 <= i < |routes| => Probe(MatchRoutePath(CompilePageRoute(routes[i]).path, slug), true, []))
  }

  predicate PathHit(route: PageRoute, slug: seq<string>) {
    MatchRoutePath(CompilePageRoute(route).path, slug).Some?
  }

  /** Where the loop of `modulePageRouter` stops for this context. */
  function Landing(options: PageRouterOptions, context: RouteContext): (r: Scan)
    ensures r.Found? ==> r.index < |options.routes|
  {
    ScanRoutes(ProbePages(options.routes, context.slug))
  }

  function Deny(options: PageRouterOptions, denial: Denial, denied: DeniedPage): Outcome<JsValue> {
    match denial
    case Unauthorized => if options.onUnauthorized.Some? then options.onUnauthorized.value(denied) else Returns(JNull)
    case Forbidden => if options.onForbidden.Some? then options.onForbidden.value(denied) else Returns(JNull)
  }

  /** The ladder, then `canAccess` by truthiness, then the handler. */
  function Guard(options: PageRouterOptions, route: PageRoute, ctx: PageContext): Outcome<JsValue> {
    var denied := DeniedPage(ctx, route);
    var userRoles := UserRoles(ctx.user, options.readRoles);
    match CheckAccess(ParseAuth(route.auth), NormalizeRoleValues(route.roles), AdminRoleSet(options.adminRoles), ctx.user, userRoles)
    case Some(denial) => Deny(options, denial, denied)
    case None =>
      if route.canAccess.None? then route.handler(ctx)
      else match route.canAccess.value(ctx)
        case Throws(e) => Throws(e)
        case Returns(v) => if !Truthy(v) then Deny(options, Forbidden, denied) else route.handler(ctx)
  }

  predicate RouteNeedsUser(route: PageRoute) {
    ShouldResolveUser(route.resolveUser, ParseAuth(route.auth), NormalizeRoleValues(route.roles), route.canAccess.Some?)
  }

  /** `modulePageRouter(context)`, with `getUser` the outcome the auth adapter
      would give if asked. */
  function RoutePageRequest(options: PageRouterOptions, context: RouteContext, getUser: Outcome<JsValue>): (r: Outcome<JsValue>)
    ensures UserLookedUp(options, context) && getUser.Throws? ==> r == Throws(getUser.error)
    ensures Landing(options, context).Exhausted? ==>
              r == if options.onNotFound.Some? then options.onNotFound.value(context) else Returns(JNull)
  {
    match Landing(options, context)
    case Found(i, params) =>
      var route := options.routes[i];
      if RouteNeedsUser(route) then
        match getUser
        case Throws(e) => Throws(e)
        case Returns(user) => Guard(options, route, PageContext(context, params, user))
      else Guard(options, route, PageContext(context, params, JNull))
    case Exhausted(_) =>
      if options.onNotFound.Some? then options.onNotFound.value(context) else Returns(JNull)
  }

  /** The router calls `getUser` for this context. */
  predicate UserLookedUp(options: PageRouterOptions, context: RouteContext) {
    var landing := Landing(options, context);
    landing.Found? && RouteNeedsUser(options.routes[landing.index])
  }

  // ---------------------------------------------------------------------------
  // Properties
  // ---------------------------------------------------------------------------

  lemma ProbesHit(routes: seq<PageRoute>, slug: seq<string>)
    ensures var probes := ProbePages(routes, slug);
            forall i :: 0 <= i < |routes| ==> (Hit(probes[i]) <==> PathHit(routes[i], slug))
  {
  }

  /** The request lands on the first route matching the path, with the
      parameters it binds; it lands nowhere exactly when no route matches. */
  lemma LandsOnFirstPathMatch(options: PageRouterOptions, context: RouteContext)
    ensures var landing := Landing(options, context);
            && (landing.Found? ==>
                  && PathHit(options.routes[landing.index], context.slug)
                  && MatchRoutePath(CompilePageRoute(options.routes[landing.index]).path, context.slug) == Some(landing.params)
                  && forall j :: 0 <= j < landing.index ==> !PathHit(options.routes[j], context.slug))
            && (landing.Exhausted? <==> forall j :: 0 <= j < |options.routes| ==> !PathHit(options.routes[j], context.slug))
  {
    ProbesHit(options.routes, context.slug);
    ScanRoutesSpec(ProbePages(options.routes, context.slug));
    FoundIffSomeHit(ProbePages(options.routes, context.slug));
  }

  /** Page routes never collect methods: an exhausted walk is empty-handed. */
  lemma NothingCollected(options: PageRouterOptions, context: RouteContext)
    requires Landing(options, context).Exhausted?
    ensures Landing(options, context).allowed == []
  {
    NoMethodMissCollectsNothing(ProbePages(options.routes, context.slug));
  }

  /** With no route matching, the answer is `null` (or the hook's). */
  lemma NoMatchIsNull(options: PageRouterOptions, context: RouteContext, getUser: Outcome<JsValue>)
    requires forall j :: 0 <= j < |options.routes| ==> !PathHit(options.routes[j], context.slug)
    ensures RoutePageRequest(options, context, getUser) ==
            if options.onNotFound.Some? then options.onNotFound.value(context) else Returns(JNull)
  {
    LandsOnFirstPathMatch(options, context);
  }

  /** Without hooks, every denial of the ladder answers `null`. */
  lemma DefaultDenialIsNull(options: PageRouterOptions, route: PageRoute, ctx: PageContext)
    requires options.onUnauthorized.None? && options.onForbidden.None?
    requires CheckAccess(ParseAuth(route.auth), NormalizeRoleValues(route.roles), AdminRoleSet(options.adminRoles),
                         ctx.user, UserRoles(ctx.user, options.readRoles)).Some?
    ensures Guard(options, route, ctx) == Returns(JNull)
  {
  }

  /** `canAccess` decides by truthiness alone: any truthy value, whatever it is,
      runs the handler; a falsy one is a denial. */
  lemma CanAccessByTruthiness(options: PageRouterOptions, route: PageRoute, ctx: PageContext, v: JsValue)
    requires route.canAccess.Some? && route.canAccess.value(ctx) == Returns(v)
    requires CheckAccess(ParseAuth(route.auth), NormalizeRoleValues(route.roles), AdminRoleSet(options.adminRoles),
                         ctx.user, UserRoles(ctx.user, options.readRoles)) == None
    ensures Truthy(v) ==> Guard(options, route, ctx) == route.handler(ctx)
    ensures !Truthy(v) ==> Guard(options, route, ctx) == Deny(options, Forbidden, DeniedPage(ctx, route))
  {
  }

  /** A route that does not ask for the user never consults `getUser`. */
  lemma SkippedLookupIsIgnored(options: PageRouterOptions, context: RouteContext,
                               getUser1: Outcome<JsValue>, getUser2: Outcome<JsValue>)
    requires !UserLookedUp(options, context)
    ensures RoutePageRequest(options, context, getUser1) == RoutePageRequest(options, context, getUser2)
  {
  }

  /** A failing lookup fails the request before any check or handler runs. */
  lemma FailedLookupPropagates(options: PageRouterOptions, context: RouteContext, error: JsValue)
    requires UserLookedUp(options, context)
    ensures RoutePageRequest(options, context, Throws(error)) == Throws(error)
  {
  }

  /** A denial is final: a route that matches and denies is the answer even when
      a later route would have granted. */
  lemma DenialIsFinal(options: PageRouterOptions, context: RouteContext, user: JsValue)
    requires options.onUnauthorized.None? && options.onForbidden.None?
    requires Landing(options, context).Found?
    requires var route := options.routes[Landing(options, context).index];
             RouteNeedsUser(route) &&
             CheckAccess(ParseAuth(route.auth), NormalizeRoleValues(route.roles), AdminRoleSet(options.adminRoles),
                         user, UserRoles(user, options.readRoles)).Some?
    ensures RoutePageRequest(options, context, Returns(user)) == Returns(JNull)
  {
    var landing := Landing(options, context);
    var route := options.routes[landing.index];
    var ctx := PageContext(context, landing.params, user);
    assert RoutePageRequest(options, context, Returns(user)) == Guard(options, route, ctx);
    GuardDenies(options, route, ctx);
  }

  /** Without hooks, a denial by the ladder answers `null`. */
  lemma GuardDenies(options: PageRouterOptions, route: PageRoute, ctx: PageContext)
    requires options.onUnauthorized.None? && options.onForbidden.None?
    requires CheckAccess(ParseAuth(route.auth), NormalizeRoleValues(route.roles), AdminRoleSet(options.adminRoles),
                         ctx.user, UserRoles(ctx.user, options.readRoles)).Some?
    ensures Guard(options, route, ctx) == Returns(JNull)
  {
  }
}
