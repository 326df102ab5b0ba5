/**
 * `createModuleApiRouter` (dist/server.js): routes are compiled once, then a
 * request is matched against them left to right. The first route matching on
 * path and method runs the authorisation ladder and its handler; routes that
 * match on path only contribute their methods to a 405 answer; with no path
 * match at all the answer is 404.
 */
module ApiRouter {
  import opened Js
  import opened Strings
  import opened RoutePaths
  import opened ApiMethods
  import opened Roles
  import opened AccessControl
  import StringOrder
  import opened RouteScan

  // ---------------------------------------------------------------------------
  // Requests, responses, routes
  // ---------------------------------------------------------------------------

  /** A response: one of the router's JSON answers, or one built by the host
      (a handler's, a hook's or `canAccess`'s), known only by identity. */
  datatype Response =
    | JsonResponse(status: int, body: JsValue, allow: Option<string>)
    | HostResponse(id: nat)

  /** What `request.json()` yields: a parsed value, or a rejection. */
  datatype RequestBody = UnreadableBody | JsonBody(value: JsValue)

  /** The parts of a `Request` the SDK reads. `searchParams` stands for
      `new URL(request.url).searchParams`, which throws on a malformed URL. */
  datatype ApiRequest = ApiRequest(verb: JsValue, body: RequestBody, searchParams: Outcome<JsValue>)

  /** What a handler and `canAccess` receive. */
  datatype ApiContext = ApiContext(request: ApiRequest, context: RouteContext,
                                   params: map<string, string>, user: JsValue)

  /** A `canAccess` result: a `Response` instance or any other value. */
  datatype AccessResult = AccessResponse(response: Response) | AccessValue(value: JsValue)

  datatype ApiRoute = ApiRoute(
    path: Option<string>,
    methods: JsValue,
    auth: JsValue,
    roles: seq<JsValue>,
    resolveUser: JsValue,
    canAccess: Option<ApiContext -> Outcome<AccessResult>>,
    handler: ApiContext -> Outcome<Response>)

  /** What the denial hooks receive: the handler context and the route. */
  datatype DeniedContext = DeniedContext(handlerContext: ApiContext, route: ApiRoute)

  datatype ApiRouterOptions = ApiRouterOptions(
    routes: seq<ApiRoute>,
    readRoles: Option<JsValue -> JsValue>,
    adminRoles: Option<seq<JsValue>>,
    onUnauthorized: Option<DeniedContext -> Outcome<Response>>,
    onForbidden: Option<DeniedContext -> Outcome<Response>>,
    onMethodNotAllowed: Option<(ApiRequest, RouteContext, seq<string>) -> Outcome<Response>>,
    onNotFound: Option<(ApiRequest, RouteContext) -> Outcome<Response>>)

  /** The routing options with nothing but routes, as the CRUD generator passes them. */
  function RoutesOnly(routes: seq<ApiRoute>): ApiRouterOptions {
    ApiRouterOptions(routes, None, None, None, None, None, None)
  }

  // ---------------------------------------------------------------------------
  // Default responses
  // ---------------------------------------------------------------------------

  function ErrorBody(message: string): JsValue {
    JObject(map["error" := JStr(message)])
  }

  function UnauthorizedResponse(): Response {
    JsonResponse(401, ErrorBody("Authentication required."), None)
  }

  function ForbiddenResponse(): Response {
    JsonResponse(403, ErrorBody("Forbidden."), None)
  }

  function NotFoundResponse(): Response {
    JsonResponse(404, ErrorBody("Module API route not found."), None)
  }

  /** `methodNotAllowedApiResponse`: 405, with an `Allow` header unless the list joins to ''. */
  function MethodNotAllowedResponse(allowed: seq<string>): (r: Response)
    ensures r.JsonResponse? && r.status == 405
    ensures r.allow.Some? <==> |Join(allowed, ", ")| > 0
    ensures r.allow.Some? ==> r.allow.value == Join(allowed, ", ")
  {
    var allowValue := Join(allowed, ", ");
    JsonResponse(405, ErrorBody("Method not allowed."), if |allowValue| > 0 then Some(allowValue) else None)
  }

  // ---------------------------------------------------------------------------
  // Compilation and the scan over the table
  // ---------------------------------------------------------------------------

  datatype CompiledApiRoute = CompiledApiRoute(path: seq<Segment>, methods: seq<string>, roles: set<string>)

  /** Each method of a compiled route is one of the known methods, listed once;
      the route has at least one. */
  predicate MethodsCompiled(methods: seq<string>) {
    |methods| > 0 && StringOrder.Distinct(methods) &&
    forall m :: m in methods ==> m in KnownMethods && |m| > 0
  }

  /** `compileApiRoutes`, one route: the compiled pattern, a non-empty list of
      distinct known methods, and the canonical roles the route names. */
  function CompileApiRoute(route: ApiRoute): (r: CompiledApiRoute)
    ensures r.path == CompileRoutePath(route.path)
    ensures MethodsCompiled(r.methods)
    ensures forall role :: role in r.roles <==> role != "" && Names(route.roles, role)
    ensures forall role :: role in r.roles ==> CanonicalRole(role)
  {
    var methods := NormalizeApiMethods(route.methods);
    CompiledMethodsKnown(methods);
    RolesAreCanonical(route.roles);
    CompiledApiRoute(CompileRoutePath(route.path), methods, NormalizeRoleValues(route.roles))
  }

  lemma CompiledMethodsKnown(methods: seq<string>)
    requires |methods| > 0 && StringOrder.Distinct(methods)
    requires forall m :: m in methods ==> m in KnownMethods
    ensures MethodsCompiled(methods)
  {
    forall m | m in methods ensures |m| > 0 {
      KnownMethodsAreCanonical(m);
    }
  }

  /** The table is compiled route by route, in order. Every compiled route
      has a non-empty, duplicate-free list of known methods and only canonical
      roles. */
  function CompileApiRoutes(routes: seq<ApiRoute>): (r: seq<CompiledApiRoute>)
    ensures |r| == |routes|
    ensures forall i :: 0 <= i < |routes| ==> r[i] == CompileApiRoute(routes[i])
    ensures forall i :: 0 <= i < |routes| ==> MethodsCompiled(r[i].methods)
    ensures forall i, role :: 0 <= i < |routes| && role in r[i].roles ==> CanonicalRole(role)
  {
    seq(|routes|, i requires 0 <= i < |routes| => CompileApiRoute(routes[i]))
  }

  predicate PathHit(c: CompiledApiRoute, slug: seq<string>) {
    MatchRoutePath(c.path, slug).Some?
  }

  predicate FullHit(c: CompiledApiRoute, slug: seq<string>, requestMethod: string) {
    PathHit(c, slug) && MethodMatchesRoute(c.methods, requestMethod)
  }

  /** How one compiled route meets the request. */
  function ProbeRoute(c: CompiledApiRoute, slug: seq<string>, requestMethod: string): RouteScan.Probe {
    RouteScan.Probe(MatchRoutePath(c.path, slug), MethodMatchesRoute(c.methods, requestMethod), c.methods)
  }

  function ProbeRoutes(compiled: seq<CompiledApiRoute>, slug: seq<string>, requestMethod: string): (r: seq<RouteScan.Probe>)
    ensures |r| == |compiled|
    ensures forall i :: 0 <= i < |compiled| ==> r[i] == ProbeRoute(compiled[i], slug, requestMethod)
  {
    seq(|compiled|, i requires 0 <= i < |compiled| => ProbeRoute(compiled[i], slug, requestMethod))
  }

  /** Where the loop of `moduleApiRouter` stops for this request. */
  function Landing(options: ApiRouterOptions, request: ApiRequest, context: RouteContext): (r: RouteScan.Scan)
    ensures r.Found? ==> r.index < |options.routes|
    ensures r.Exhausted? ==> StringOrder.Distinct(r.allowed)
  {
    var compiled := CompileApiRoutes(options.routes);
    RouteScan.ScanRoutes(ProbeRoutes(compiled, context.slug, RequestMethod(request.verb)))
  }

  /** `m` belongs in the 405 answer: a non-ANY method of a route matching on path. */
  predicate AllowedOnPath(compiled: seq<CompiledApiRoute>, slug: seq<string>, m: string) {
    m != "ANY" && exists i :: 0 <= i < |compiled| && PathHit(compiled[i], slug) && m in compiled[i].methods
  }

  /** `allow` is the comma-separated list of the methods allowed on the path,
      each once, in ascending order. */
  ghost predicate ListsAllowed(allow: string, compiled: seq<CompiledApiRoute>, slug: seq<string>) {
    exists ordered: seq<string> ::
      && StringOrder.StrictlySorted(ordered) && |ordered| > 0
      && allow == Join(ordered, ", ")
      && forall m :: m in ordered <==> AllowedOnPath(compiled, slug, m)
  }

  /** A route with `ANY` matches every method once it matches the path, so the
      source's `method !== 'ANY'` filter never drops anything. */
  lemma AnyRoutesNeverCollected(c: CompiledApiRoute, slug: seq<string>, requestMethod: string)
    requires "ANY" in c.methods
    ensures PathHit(c, slug) ==> FullHit(c, slug, requestMethod)
  {
  }

  // ---------------------------------------------------------------------------
  // Dispatch to a matched route
  // ---------------------------------------------------------------------------

  function Deny(options: ApiRouterOptions, denial: Denial, denied: DeniedContext): Outcome<Response> {
    match denial
    case Unauthorized =>
      if options.onUnauthorized.Some? then options.onUnauthorized.value(denied) else Returns(UnauthorizedResponse())
    case Forbidden =>
      if options.onForbidden.Some? then options.onForbidden.value(denied) else Returns(ForbiddenResponse())
  }

  /** The ladder, then `canAccess`, then the handler, for a resolved user. */
  function Guard(options: ApiRouterOptions, route: ApiRoute, routeRoles: set<string>, ctx: ApiContext): Outcome<Response> {
    var denied := DeniedContext(ctx, route);
    var userRoles := UserRoles(ctx.user, options.readRoles);
    match CheckAccess(ParseAuth(route.auth), routeRoles, AdminRoleSet(options.adminRoles), ctx.user, userRoles)
    case Some(denial) => Deny(options, denial, denied)
    case None =>
      if route.canAccess.None? then route.handler(ctx)
      else match route.canAccess.value(ctx)
        case Throws(e) => Throws(e)
        case Returns(AccessResponse(response)) => Returns(response)
        case Returns(AccessValue(v)) =>
          if !Truthy(v) then Deny(options, Forbidden, denied) else route.handler(ctx)
  }

  predicate RouteNeedsUser(route: ApiRoute, routeRoles: set<string>) {
    ShouldResolveUser(route.resolveUser, ParseAuth(route.auth), routeRoles, route.canAccess.Some?)
  }

  /** Resolve the user when the route asks for it (`getUser` is the outcome of
      that call), then guard the route. */
  function Dispatch(options: ApiRouterOptions, route: ApiRoute, routeRoles: set<string>,
                    request: ApiRequest, context: RouteContext, params: map<string, string>,
                    getUser: Outcome<JsValue>): Outcome<Response> {
    if RouteNeedsUser(route, routeRoles) then
      match getUser
      case Throws(e) => Throws(e)
      case Returns(user) => Guard(options, route, routeRoles, ApiContext(request, context, params, user))
    else Guard(options, route, routeRoles, ApiContext(request, context, params, JNull))
  }

  /** `moduleApiRouter(request, context)`, with `getUser` the outcome the auth
      adapter would give if asked. */
  function RouteApiRequest(options: ApiRouterOptions, request: ApiRequest, context: RouteContext,
                           getUser: Outcome<JsValue>): (r: Outcome<Response>)
    ensures UserLookedUp(options, request, context) && getUser.Throws? ==> r == Throws(getUser.error)
    ensures Landing(options, request, context).Exhausted? && |Landing(options, request, context).allowed| == 0 ==>
              r == if options.onNotFound.Some? then options.onNotFound.value(request, context)
                   else Returns(NotFoundResponse())
    ensures Landing(options, request, context).Exhausted? && |Landing(options, request, context).allowed| > 0 &&
            options.onMethodNotAllowed.None? ==>
              r.Returns? && r.value.JsonResponse? && r.value.status == 405
  {
    match Landing(options, request, context)
    case Found(i, params) =>
      Dispatch(options, options.routes[i], NormalizeRoleValues(options.routes[i].roles),
               request, context, params, getUser)
    case Exhausted(allowed) => Unmatched(options, request, context, allowed)
  }

  /** The answer when no route matched on path and method: 405 with the sorted
      collected methods, or 404 when none were collected (or the hooks' answers). */
  function Unmatched(options: ApiRouterOptions, request: ApiRequest, context: RouteContext,
                     allowed: seq<string>): (r: Outcome<Response>)
    requires StringOrder.Distinct(allowed)
    ensures |allowed| == 0 ==>
              r == if options.onNotFound.Some? then options.onNotFound.value(request, context)
                   else Returns(NotFoundResponse())
    ensures |allowed| > 0 && options.onMethodNotAllowed.None? ==>
              r == Returns(MethodNotAllowedResponse(StringOrder.Sort(allowed)))
  {
    if |allowed| > 0 then
      var ordered := StringOrder.Sort(allowed);
      if options.onMethodNotAllowed.Some? then options.onMethodNotAllowed.value(request, context, ordered)
      else Returns(MethodNotAllowedResponse(ordered))
    else if options.onNotFound.Some? then options.onNotFound.value(request, context)
    else Returns(NotFoundResponse())
  }

  /** The router calls `getUser` for this request. */
  predicate UserLookedUp(options: ApiRouterOptions, request: ApiRequest, context: RouteContext) {
    var landing := Landing(options, request, context);
    landing.Found? &&
    RouteNeedsUser(options.routes[landing.index], NormalizeRoleValues(options.routes[landing.index].roles))
  }

  // ---------------------------------------------------------------------------
  // Properties
  // ---------------------------------------------------------------------------

  /** The request lands on the first route matching on path and method, with the
      parameters its path binds; it lands nowhere exactly when no route matches both. */
  lemma LandsOnFirstFullMatch(options: ApiRouterOptions, request: ApiRequest, context: RouteContext)
    ensures var compiled := CompileApiRoutes(options.routes);
            var rm := RequestMethod(request.verb);
            var landing := Landing(options, request, context);
            && (landing.Found? ==>
                  && FullHit(compiled[landing.index], context.slug, rm)
                  && MatchRoutePath(compiled[landing.index].path, context.slug) == Some(landing.params)
                  && forall j :: 0 <= j < landing.index ==> !FullHit(compiled[j], context.slug, rm))
            && (landing.Exhausted? <==>
                  forall j :: 0 <= j < |compiled| ==> !FullHit(compiled[j], context.slug, rm))
  {
    var compiled := CompileApiRoutes(options.routes);
    var probes := ProbeRoutes(compiled, context.slug, RequestMethod(request.verb));
    ProbesHit(compiled, context.slug, RequestMethod(request.verb));
    RouteScan.ScanRoutesSpec(probes);
    RouteScan.FoundIffSomeHit(probes);
  }

  lemma ProbesHit(compiled: seq<CompiledApiRoute>, slug: seq<string>, requestMethod: string)
    ensures var probes := ProbeRoutes(compiled, slug, requestMethod);
            forall i :: 0 <= i < |compiled| ==>
              (RouteScan.Hit(probes[i]) <==> FullHit(compiled[i], slug, requestMethod))
  {
  }

  /** After a scan with no full match, the collected methods are the non-ANY
      methods of the routes matching on path. */
  lemma ExhaustedCollectsPathMethods(options: ApiRouterOptions, request: ApiRequest, context: RouteContext)
    requires Landing(options, request, context).Exhausted?
    ensures forall m :: m in Landing(options, request, context).allowed <==>
                        AllowedOnPath(CompileApiRoutes(options.routes), context.slug, m)
  {
    var compiled := CompileApiRoutes(options.routes);
    var rm := RequestMethod(request.verb);
    var probes := ProbeRoutes(compiled, context.slug, rm);
    RouteScan.ScanRoutesSpec(probes);
    forall m ensures RouteScan.Allows(probes, m) <==> AllowedOnPath(compiled, context.slug, m) {
      AllowsOnPath(compiled, context.slug, rm, m);
    }
  }

  lemma AllowsOnPath(compiled: seq<CompiledApiRoute>, slug: seq<string>, requestMethod: string, m: string)
    requires forall j :: 0 <= j < |compiled| ==> !FullHit(compiled[j], slug, requestMethod)
    ensures RouteScan.Allows(ProbeRoutes(compiled, slug, requestMethod), m) <==> AllowedOnPath(compiled, slug, m)
  {
    var probes := ProbeRoutes(compiled, slug, requestMethod);
    if AllowedOnPath(compiled, slug, m) {
      var i :| 0 <= i < |compiled| && PathHit(compiled[i], slug) && m in compiled[i].methods;
      assert probes[i].params.Some? && !probes[i].methodOk && m in probes[i].methods;
    }
    if RouteScan.Allows(probes, m) {
      var i :| 0 <= i < |probes| && probes[i].params.Some? && !probes[i].methodOk && m in probes[i].methods;
      assert PathHit(compiled[i], slug);
    }
  }

  /** Without any route matching the path, the answer is 404 (or the hook's). */
  lemma NoPathMatchIsNotFound(options: ApiRouterOptions, request: ApiRequest, context: RouteContext,
                              getUser: Outcome<JsValue>)
    requires forall i :: 0 <= i < |options.routes| ==>
               MatchRoutePath(CompileRoutePath(options.routes[i].path), context.slug).None?
    ensures RouteApiRequest(options, request, context, getUser) ==
            if options.onNotFound.Some? then options.onNotFound.value(request, context)
            else Returns(NotFoundResponse())
  {
    var compiled := CompileApiRoutes(options.routes);
    var probes := ProbeRoutes(compiled, context.slug, RequestMethod(request.verb));
    assert forall i :: 0 <= i < |probes| ==> probes[i].params.None?;
    RouteScan.NoPathMatchCollectsNothing(probes);
  }

  /** When some route matches the path but none the method, the answer is 405
      with the collected methods in ascending order, joined into `Allow`. */
  lemma PathOnlyMatchIsMethodNotAllowed(options: ApiRouterOptions, request: ApiRequest,
                                        context: RouteContext, getUser: Outcome<JsValue>, k: nat)
    requires options.onMethodNotAllowed.None?
    requires k < |options.routes|
    requires MatchRoutePath(CompileRoutePath(options.routes[k].path), context.slug).Some?
    requires forall i :: 0 <= i < |options.routes| ==>
               !FullHit(CompileApiRoute(options.routes[i]), context.slug, RequestMethod(request.verb))
    ensures RouteApiRequest(options, request, context, getUser).Returns?
    ensures var r := RouteApiRequest(options, request, context, getUser).value;
            r.JsonResponse? && r.status == 405 && r.allow.Some? &&
            ListsAllowed(r.allow.value, CompileApiRoutes(options.routes), context.slug)
  {
    PathOnlyLanding(options, request, context, k);
    ExhaustedAnswer(options, request, context, getUser);
    UnmatchedAllowHeader(options, request, context, Landing(options, request, context).allowed,
                         CompileApiRoutes(options.routes), context.slug);
  }

  /** The scan of a request that matches some route on path only ends with the
      path's methods collected. */
  lemma PathOnlyLanding(options: ApiRouterOptions, request: ApiRequest, context: RouteContext, k: nat)
    requires k < |options.routes|
    requires MatchRoutePath(CompileRoutePath(options.routes[k].path), context.slug).Some?
    requires forall i :: 0 <= i < |options.routes| ==>
               !FullHit(CompileApiRoute(options.routes[i]), context.slug, RequestMethod(request.verb))
    ensures Landing(options, request, context).Exhausted?
    ensures exists m :: m in Landing(options, request, context).allowed && |m| > 0
    ensures forall m :: m in Landing(options, request, context).allowed <==>
                        AllowedOnPath(CompileApiRoutes(options.routes), context.slug, m)
  {
    PathOnlyMatchCollects(options, request, context, k);
    ExhaustedCollectsPathMethods(options, request, context);
  }

  /** The default 405 for a non-empty collection lists exactly the collected
      methods, sorted, in its `Allow` header. */
  lemma UnmatchedAllowHeader(options: ApiRouterOptions, request: ApiRequest, context: RouteContext,
                             allowed: seq<string>, compiled: seq<CompiledApiRoute>, slug: seq<string>)
    requires options.onMethodNotAllowed.None?
    requires StringOrder.Distinct(allowed)
    requires exists m :: m in allowed && |m| > 0
    requires forall m :: m in allowed <==> AllowedOnPath(compiled, slug, m)
    ensures Unmatched(options, request, context, allowed).Returns?
    ensures var r := Unmatched(options, request, context, allowed).value;
            r.JsonResponse? && r.status == 405 && r.allow.Some? &&
            ListsAllowed(r.allow.value, compiled, slug)
  {
    UnmatchedIsMethodNotAllowed(options, request, context, allowed);
    var ordered := StringOrder.Sort(allowed);
    var m :| m in allowed && |m| > 0;
    assert m in ordered;
  }

  lemma ExhaustedAnswer(options: ApiRouterOptions, request: ApiRequest, context: RouteContext,
                        getUser: Outcome<JsValue>)
    requires Landing(options, request, context).Exhausted?
    ensures RouteApiRequest(options, request, context, getUser) ==
            Unmatched(options, request, context, Landing(options, request, context).allowed)
  {
  }

  lemma SortedAllowed(options: ApiRouterOptions, request: ApiRequest, context: RouteContext)
    requires Landing(options, request, context).Exhausted?
    ensures var ordered := StringOrder.Sort(Landing(options, request, context).allowed);
            && StringOrder.StrictlySorted(ordered)
            && forall m :: m in ordered <==> AllowedOnPath(CompileApiRoutes(options.routes), context.slug, m)
  {
    ExhaustedCollectsPathMethods(options, request, context);
  }

  /** Some method is collected when route `k` matches on path and no route on both. */
  lemma PathOnlyMatchCollects(options: ApiRouterOptions, request: ApiRequest, context: RouteContext, k: nat)
    requires k < |options.routes|
    requires MatchRoutePath(CompileRoutePath(options.routes[k].path), context.slug).Some?
    requires forall i :: 0 <= i < |options.routes| ==>
               !FullHit(CompileApiRoute(options.routes[i]), context.slug, RequestMethod(request.verb))
    ensures Landing(options, request, context).Exhausted?
    ensures exists m :: m in Landing(options, request, context).allowed && |m| > 0
  {
    var compiled := CompileApiRoutes(options.routes);
    PathOnlyTable(compiled, context.slug, RequestMethod(request.verb), k);
  }

  lemma PathOnlyTable(compiled: seq<CompiledApiRoute>, slug: seq<string>, requestMethod: string, k: nat)
    requires k < |compiled| && PathHit(compiled[k], slug) && |compiled[k].methods| > 0
    requires forall m :: m in compiled[k].methods ==> |m| > 0
    requires forall i :: 0 <= i < |compiled| ==> !FullHit(compiled[i], slug, requestMethod)
    ensures RouteScan.ScanRoutes(ProbeRoutes(compiled, slug, requestMethod)).Exhausted?
    ensures exists m :: m in RouteScan.ScanRoutes(ProbeRoutes(compiled, slug, requestMethod)).allowed && |m| > 0
  {
    var probes := ProbeRoutes(compiled, slug, requestMethod);
    var m := compiled[k].methods[0];
    assert m in compiled[k].methods;
    assert !RouteScan.Hit(probes[k]);
    RouteScan.PathOnlyMatchCollects(probes, k, m);
  }

  /** With methods collected and no hook, the answer is the default 405. */
  lemma UnmatchedIsMethodNotAllowed(options: ApiRouterOptions, request: ApiRequest, context: RouteContext,
                                    allowed: seq<string>)
    requires options.onMethodNotAllowed.None?
    requires StringOrder.Distinct(allowed)
    requires exists m :: m in allowed && |m| > 0
    ensures var r := Unmatched(options, request, context, allowed);
            && r == Returns(MethodNotAllowedResponse(StringOrder.Sort(allowed)))
            && r.value.allow == Some(Join(StringOrder.Sort(allowed), ", "))
  {
    var m :| m in allowed && |m| > 0;
    var ordered := StringOrder.Sort(allowed);
    assert m in ordered;
    NonEmptyJoin(ordered, m);
  }

  lemma NonEmptyJoin(ordered: seq<string>, m: string)
    requires m in ordered && |m| > 0
    ensures |Join(ordered, ", ")| > 0
  {
    var i :| 0 <= i < |ordered| && ordered[i] == m;
    JoinOfNonEmpty(ordered, ", ", i);
  }

  lemma {:induction false} JoinOfNonEmpty(parts: seq<string>, sep: string, i: nat)
    requires i < |parts| && |parts[i]| > 0
    ensures |Join(parts, sep)| > 0
    decreases i
  {
    if i > 0 {
      JoinOfNonEmpty(parts[1..], sep, i - 1);
    }
  }

  /** A route that does not ask for the user never consults `getUser`: the
      answer is the same whatever the lookup would have produced. */
  lemma SkippedLookupIsIgnored(options: ApiRouterOptions, request: ApiRequest, context: RouteContext,
                               getUser1: Outcome<JsValue>, getUser2: Outcome<JsValue>)
    requires !UserLookedUp(options, request, context)
    ensures RouteApiRequest(options, request, context, getUser1) ==
            RouteApiRequest(options, request, context, getUser2)
  {
  }

  /** A failing lookup fails the request, before any check or handler runs. */
  lemma FailedLookupPropagates(options: ApiRouterOptions, request: ApiRequest, context: RouteContext,
                               error: JsValue)
    requires UserLookedUp(options, request, context)
    ensures RouteApiRequest(options, request, context, Throws(error)) == Throws(error)
  {
  }

  /** The handler context of the route the request lands on, for a lookup that
      returns `user` (or the `null` user when the route does not look up). */
  function LandedContext(options: ApiRouterOptions, request: ApiRequest, context: RouteContext,
                         user: JsValue): (r: Option<ApiContext>)
    ensures r.Some? <==> Landing(options, request, context).Found?
  {
    match Landing(options, request, context)
    case Found(i, params) =>
      var u := if RouteNeedsUser(options.routes[i], NormalizeRoleValues(options.routes[i].roles)) then user else JNull;
      Some(ApiContext(request, context, params, u))
    case Exhausted(_) => None
  }

  /** On an admin route, a missing user gets 401 and a user without an admin
      role gets 403 (when no hook overrides), and the handler is not run. */
  lemma AdminRouteDenials(options: ApiRouterOptions, request: ApiRequest, context: RouteContext,
                          user: JsValue)
    requires options.onUnauthorized.None? && options.onForbidden.None?
    requires Landing(options, request, context).Found?
    requires ParseAuth(options.routes[Landing(options, request, context).index].auth) == AuthAdmin
    ensures !Truthy(user) ==>
              RouteApiRequest(options, request, context, Returns(user)) == Returns(UnauthorizedResponse())
    ensures Truthy(user) && !HasRequiredRole(UserRoles(user, options.readRoles), AdminRoleSet(options.adminRoles)) ==>
              RouteApiRequest(options, request, context, Returns(user)) == Returns(ForbiddenResponse())
  {
    FoundAnswer(options, request, context, user);
    var route := options.routes[Landing(options, request, context).index];
    var ctx := LandedContext(options, request, context, user).value;
    assert ctx.user == user;
    GuardAdmin(options, route, NormalizeRoleValues(route.roles), ctx);
  }

  /** A landed request is answered by the guard of its route. */
  lemma FoundAnswer(options: ApiRouterOptions, request: ApiRequest, context: RouteContext, user: JsValue)
    requires Landing(options, request, context).Found?
    ensures var route := options.routes[Landing(options, request, context).index];
            RouteApiRequest(options, request, context, Returns(user)) ==
            Guard(options, route, NormalizeRoleValues(route.roles), LandedContext(options, request, context, user).value)
  {
  }

  /** The guard of an admin route without hooks: 401 without a user, 403
      without an admin role. */
  lemma GuardAdmin(options: ApiRouterOptions, route: ApiRoute, routeRoles: set<string>, ctx: ApiContext)
    requires options.onUnauthorized.None? && options.onForbidden.None?
    requires ParseAuth(route.auth) == AuthAdmin
    ensures !Truthy(ctx.user) ==> Guard(options, route, routeRoles, ctx) == Returns(UnauthorizedResponse())
    ensures Truthy(ctx.user) && !HasRequiredRole(UserRoles(ctx.user, options.readRoles), AdminRoleSet(options.adminRoles)) ==>
              Guard(options, route, routeRoles, ctx) == Returns(ForbiddenResponse())
  {
  }

  /** A request that passes the ladder and has no `canAccess` runs the handler
      of the route it landed on, with that route's parameters and the user. */
  lemma GrantedRunsHandler(options: ApiRouterOptions, request: ApiRequest, context: RouteContext,
                           user: JsValue)
    requires Landing(options, request, context).Found?
    requires var route := options.routes[Landing(options, request, context).index];
             var ctx := LandedContext(options, request, context, user).value;
             route.canAccess.None? &&
             CheckAccess(ParseAuth(route.auth), NormalizeRoleValues(route.roles),
                         AdminRoleSet(options.adminRoles), ctx.user,
                         UserRoles(ctx.user, options.readRoles)) == None
    ensures RouteApiRequest(options, request, context, Returns(user)) ==
            options.routes[Landing(options, request, context).index].handler(LandedContext(options, request, context, user).value)
  {
    FoundAnswer(options, request, context, user);
  }

  /** A `Response` from `canAccess` is the answer as it is; a falsy value is a 403. */
  lemma CanAccessDecides(options: ApiRouterOptions, route: ApiRoute, routeRoles: set<string>, ctx: ApiContext)
    requires route.canAccess.Some?
    requires CheckAccess(ParseAuth(route.auth), routeRoles, AdminRoleSet(options.adminRoles), ctx.user,
                         UserRoles(ctx.user, options.readRoles)) == None
    ensures route.canAccess.value(ctx).Returns? && route.canAccess.value(ctx).value.AccessResponse? ==>
              Guard(options, route, routeRoles, ctx) == Returns(route.canAccess.value(ctx).value.response)
    ensures route.canAccess.value(ctx) == Returns(AccessValue(JBool(false))) && options.onForbidden.None? ==>
              Guard(options, route, routeRoles, ctx) == Returns(ForbiddenResponse())
    ensures route.canAccess.value(ctx).Returns? && route.canAccess.value(ctx).value.AccessValue? &&
            Truthy(route.canAccess.value(ctx).value.value) ==>
              Guard(options, route, routeRoles, ctx) == route.handler(ctx)
  {
  }
}
