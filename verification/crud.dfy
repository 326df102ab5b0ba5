/**
 * `createDataTableCrudApiRouter` (dist/datatables/crud.js): from a handler
 * table it builds up to four API routes (list, create, update, delete) and
 * wraps each handler in a fixed pipeline: id check, JSON body check, input
 * parser, handler, revalidation, response envelope. Anything thrown on the
 * way is turned into a response by `onUnhandledError`.
 */
module DataTableCrud {
  import opened Js
  import opened Strings
  import opened RoutePaths
  import opened CrudPaths
  import opened ApiMethods
  import opened RouteScan
  import opened ApiRouter
  import StringOrder
  import Revalidation

  // ---------------------------------------------------------------------------
  // Options
  // ---------------------------------------------------------------------------

  datatype Operation = List | Create | Update | Delete

  function OperationName(op: Operation): string {
    match op
    case List => "list"
    case Create => "create"
    case Update => "update"
    case Delete => "delete"
  }

  /** The access settings a route copies from its operation's policy. */
  datatype Policy = Policy(auth: JsValue, roles: seq<JsValue>, resolveUser: JsValue)

  /** What a handler receives: the request, the router's context and, per
      operation, the search parameters, the id and the input. */
  datatype HandlerArgs = HandlerArgs(request: ApiRequest, routeContext: ApiContext,
                                     searchParams: Option<JsValue>, id: Option<JsValue>, input: Option<JsValue>)

  /** What an input parser receives. */
  datatype ParseArgs = ParseArgs(body: JsValue, request: ApiRequest, routeContext: ApiContext)

  datatype Handlers = Handlers(
    list: HandlerArgs -> Outcome<JsValue>,
    create: Option<HandlerArgs -> Outcome<JsValue>>,
    update: Option<HandlerArgs -> Outcome<JsValue>>,
    delete: Option<HandlerArgs -> Outcome<JsValue>>)

  /** The options of the router. A hook is given by what calling it yields, a
      response or a throw; `onInvalidId` takes no argument, so it is given by
      that one outcome. */
  datatype CrudOptions = CrudOptions(
    basePath: Option<string>,
    idParam: Option<string>,
    handlers: Handlers,
    parseCreateInput: Option<ParseArgs -> Outcome<JsValue>>,
    parseUpdateInput: Option<ParseArgs -> Outcome<JsValue>>,
    parseId: Option<string -> Outcome<JsValue>>,
    onInvalidJsonBody: Option<string -> Outcome<Response>>,
    onInvalidInput: Option<string -> Outcome<Response>>,
    onInvalidId: Option<Outcome<Response>>,
    onUnhandledError: Option<(JsValue, string) -> Outcome<Response>>,
    policies: map<Operation, Policy>,
    revalidateByOperation: map<Operation, seq<JsValue>>,
    revalidation: Revalidation.Adapter)

  /** `resolvePolicy`: the operation's policy, or the empty one. */
  function PolicyFor(options: CrudOptions, op: Operation): (r: Policy)
    ensures op !in options.policies ==> r == Policy(JUndefined, [], JUndefined)
    ensures op in options.policies ==> r == options.policies[op]
  {
    if op in options.policies then options.policies[op] else Policy(JUndefined, [], JUndefined)
  }

  // ---------------------------------------------------------------------------
  // Responses
  // ---------------------------------------------------------------------------

  function Failure(status: int, error: string): Response {
    JsonResponse(status, JObject(map["ok" := JBool(false), "error" := JStr(error)]), None)
  }

  function InvalidJsonBody(options: CrudOptions, op: string): Outcome<Response> {
    if options.onInvalidJsonBody.Some? then options.onInvalidJsonBody.value(op)
    else Returns(Failure(400, op + ".invalid_json_body"))
  }

  function InvalidInput(options: CrudOptions, op: string): Outcome<Response> {
    if options.onInvalidInput.Some? then options.onInvalidInput.value(op)
    else Returns(Failure(400, op + ".invalid_input"))
  }

  function InvalidId(options: CrudOptions): Outcome<Response> {
    options.onInvalidId.GetOr(Returns(Failure(400, "invalid_id")))
  }

  /** The `message` of `defaultUnhandledErrorResponse`. */
  function ErrorMessage(error: JsValue): string {
    if error.JError? then error.message else "Unexpected error"
  }

  /** The `catch` clause: `onUnhandledError` runs outside the `try`, so a throw
      of its own escapes the handler. */
  function Unhandled(options: CrudOptions, error: JsValue, op: Operation): Outcome<Response> {
    if options.onUnhandledError.Some? then options.onUnhandledError.value(error, OperationName(op))
    else Returns(JsonResponse(500, JObject(map["ok" := JBool(false), "error" := JStr("internal_error"),
                                               "message" := JStr(ErrorMessage(error))]), None))
  }

  /** The error hook answers every error, as the default one does. */
  ghost predicate UnhandledAlwaysAnswers(options: CrudOptions) {
    options.onUnhandledError.Some? ==> forall e, op :: options.onUnhandledError.value(e, op).Returns?
  }

  function Success(op: Operation, data: JsValue, status: int): Response {
    JsonResponse(status, JObject(map["ok" := JBool(true), "operation" := JStr(OperationName(op)), "data" := data]), None)
  }

  // ---------------------------------------------------------------------------
  // The pipeline
  // ---------------------------------------------------------------------------

  /** `parseJsonBody` (dist/server.js): the parsed body if it is a JSON record,
      `null` otherwise, including when reading it fails. */
  function ParseJsonBody(body: RequestBody): (r: JsValue)
    ensures r == JNull || IsJsonRecord(r)
    ensures Truthy(r) <==> body.JsonBody? && IsJsonRecord(body.value)
  {
    match body
    case UnreadableBody => JNull
    case JsonBody(v) => if IsJsonRecord(v) then v else JNull
  }

  /** A JSON record is exactly a non-array object (an `Error` counts). */
  lemma JsonRecordIsObject(v: JsValue)
    ensures IsJsonRecord(v) <==> v.JObject? || v.JError?
  {
  }

  /** `parseDefaultId`: the trimmed id, or `null` when blank. */
  function ParseDefaultId(raw: string): (r: JsValue)
    ensures r == JNull <==> AllWhitespace(raw)
    ensures r != JNull ==> r == JStr(Trim(raw)) && Trimmed(r.s) && |r.s| > 0
  {
    var normalized := Trim(raw);
    if |normalized| > 0 then JStr(normalized) else JNull
  }

  /** The id of an item request: `rawId ? parseId(rawId) : null`. Only a `null`
      result stops the request; a custom parser's `undefined` goes through. */
  function ResolveId(options: CrudOptions, ctx: ApiContext): Outcome<JsValue> {
    var name := IdParamName(options.idParam);
    if name !in ctx.params || |ctx.params[name]| == 0 then Returns(JNull)
    else if options.parseId.Some? then options.parseId.value(ctx.params[name])
    else Returns(ParseDefaultId(ctx.params[name]))
  }

  datatype ParsedInput = InputOk(input: JsValue) | InputRejected(response: Response)

  /** `{ ok: false, response: hook(operation) }`: a throwing hook rejects the
      whole `parseOperationInput` call. */
  function Rejected(hook: Outcome<Response>): Outcome<ParsedInput> {
    match hook
    case Throws(e) => Throws(e)
    case Returns(response) => Returns(InputRejected(response))
  }

  /** `parseOperationInput`. */
  function ParseOperationInput(options: CrudOptions, op: Operation, parseInput: Option<ParseArgs -> Outcome<JsValue>>,
                               ctx: ApiContext): (r: Outcome<ParsedInput>)
    ensures r.Returns? && r.value.InputOk? ==> Truthy(r.value.input) || parseInput.Some?
  {
    var body := ParseJsonBody(ctx.request.body);
    if !Truthy(body) then Rejected(InvalidJsonBody(options, OperationName(op)))
    else if parseInput.None? then Returns(InputOk(body))
    else match parseInput.value(ParseArgs(body, ctx.request, ctx))
      case Throws(e) => Throws(e)
      case Returns(input) =>
        if Nullish(input) then Rejected(InvalidInput(options, OperationName(op)))
        else Returns(InputOk(input))
  }

  /** The answer of an operation and the paths it revalidated. */
  datatype OpResult = OpResult(response: Outcome<Response>, revalidated: seq<string>)

  /** `runRevalidationIfNeeded` for the operation's configured paths. */
  function RevalidateAfter(options: CrudOptions, op: Operation): Revalidation.Run {
    if op !in options.revalidateByOperation || |options.revalidateByOperation[op]| == 0 then Revalidation.Run([], None)
    else Revalidation.RevalidatePaths(options.revalidation, options.revalidateByOperation[op])
  }

  /** The handler returned `data`: revalidate, then answer with the envelope. */
  function Complete(options: CrudOptions, op: Operation, data: JsValue, status: int): OpResult {
    var run := RevalidateAfter(options, op);
    if run.failure.Some? then OpResult(Unhandled(options, run.failure.value, op), run.calls)
    else OpResult(Returns(Success(op, data, status)), run.calls)
  }

  function Fail(options: CrudOptions, op: Operation, error: JsValue): OpResult {
    OpResult(Unhandled(options, error, op), [])
  }

  /** A hook called inside the `try`: its throw is caught like any other. */
  function Answer(options: CrudOptions, op: Operation, hook: Outcome<Response>): OpResult {
    match hook
    case Throws(e) => Fail(options, op, e)
    case Returns(response) => OpResult(Returns(response), [])
  }

  function ListOp(options: CrudOptions, ctx: ApiContext): OpResult {
    match ctx.request.searchParams
    case Throws(e) => Fail(options, List, e)
    case Returns(searchParams) =>
      match options.handlers.list(HandlerArgs(ctx.request, ctx, Some(searchParams), None, None))
      case Throws(e) => Fail(options, List, e)
      case Returns(result) => OpResult(Returns(Success(List, result, 200)), [])
  }

  function CreateOp(options: CrudOptions, create: HandlerArgs -> Outcome<JsValue>, ctx: ApiContext): OpResult {
    match ParseOperationInput(options, Create, options.parseCreateInput, ctx)
    case Throws(e) => Fail(options, Create, e)
    case Returns(InputRejected(response)) => OpResult(Returns(response), [])
    case Returns(InputOk(input)) =>
      match create(HandlerArgs(ctx.request, ctx, None, None, Some(input)))
      case Throws(e) => Fail(options, Create, e)
      case Returns(created) => Complete(options, Create, created, 201)
  }

  function UpdateOp(options: CrudOptions, update: HandlerArgs -> Outcome<JsValue>, ctx: ApiContext): OpResult {
    match ResolveId(options, ctx)
    case Throws(e) => Fail(options, Update, e)
    case Returns(id) =>
      if id == JNull then Answer(options, Update, InvalidId(options))
      else match ParseOperationInput(options, Update, options.parseUpdateInput, ctx)
        case Throws(e) => Fail(options, Update, e)
        case Returns(InputRejected(response)) => OpResult(Returns(response), [])
        case Returns(InputOk(input)) =>
          match update(HandlerArgs(ctx.request, ctx, None, Some(id), Some(input)))
          case Throws(e) => Fail(options, Update, e)
          case Returns(updated) => Complete(options, Update, updated, 200)
  }

  function DeleteOp(options: CrudOptions, delete: HandlerArgs -> Outcome<JsValue>, ctx: ApiContext): OpResult {
    match ResolveId(options, ctx)
    case Throws(e) => Fail(options, Delete, e)
    case Returns(id) =>
      if id == JNull then Answer(options, Delete, InvalidId(options))
      else match delete(HandlerArgs(ctx.request, ctx, None, Some(id), None))
        case Throws(e) => Fail(options, Delete, e)
        case Returns(deleted) => Complete(options, Delete, if Nullish(deleted) then JNull else deleted, 200)
  }

  // ---------------------------------------------------------------------------
  // The route table and the router
  // ---------------------------------------------------------------------------

  function BasePath(options: CrudOptions): string {
    NormalizeBasePath(options.basePath.GetOr("/"))
  }

  function ItemPath(options: CrudOptions): string {
    BuildItemPath(BasePath(options), IdParamName(options.idParam))
  }

  function MakeRoute(options: CrudOptions, op: Operation, methods: JsValue, path: string,
                     handler: ApiContext -> Outcome<Response>): ApiRoute {
    var policy := PolicyFor(options, op);
    ApiRoute(Some(path), methods, policy.auth, policy.roles, policy.resolveUser, None, handler)
  }

  function ListRoute(options: CrudOptions): ApiRoute {
    MakeRoute(options, List, JStr("GET"), BasePath(options), ctx => ListOp(options, ctx).response)
  }

  function CreateRoute(options: CrudOptions, create: HandlerArgs -> Outcome<JsValue>): ApiRoute {
    MakeRoute(options, Create, JStr("POST"), BasePath(options), ctx => CreateOp(options, create, ctx).response)
  }

  function UpdateRoute(options: CrudOptions, update: HandlerArgs -> Outcome<JsValue>): ApiRoute {
    MakeRoute(options, Update, JArray([JStr("PUT"), JStr("PATCH")]), ItemPath(options),
              ctx => UpdateOp(options, update, ctx).response)
  }

  function DeleteRoute(options: CrudOptions, delete: HandlerArgs -> Outcome<JsValue>): ApiRoute {
    MakeRoute(options, Delete, JStr("DELETE"), ItemPath(options), ctx => DeleteOp(options, delete, ctx).response)
  }

  /** The generated table: list, then create, update and delete when present. */
  function CrudRoutes(options: CrudOptions): (r: seq<ApiRoute>)
    ensures 1 <= |r| <= 4
  {
    var h := options.handlers;
    [ListRoute(options)]
    + (if h.create.Some? then [CreateRoute(options, h.create.value)] else [])
    + (if h.update.Some? then [UpdateRoute(options, h.update.value)] else [])
    + (if h.delete.Some? then [DeleteRoute(options, h.delete.value)] else [])
  }

  /** The generated router: an API router given nothing but the routes. */
  function CrudRouter(options: CrudOptions, request: ApiRequest, context: RouteContext,
                      getUser: Outcome<JsValue>): (r: Outcome<Response>)
    ensures MatchRoutePath(CompileRoutePath(Some(BasePath(options))), context.slug).None? &&
            MatchRoutePath(CompileRoutePath(Some(ItemPath(options))), context.slug).None? ==>
              r == Returns(NotFoundResponse())
  {
    if MatchRoutePath(CompileRoutePath(Some(BasePath(options))), context.slug).None? &&
       MatchRoutePath(CompileRoutePath(Some(ItemPath(options))), context.slug).None?
    then
      CrudPathsMiss(options, context.slug);
      ApiRouter.NoPathMatchIsNotFound(RoutesOnly(CrudRoutes(options)), request, context, getUser);
      RouteApiRequest(RoutesOnly(CrudRoutes(options)), request, context, getUser)
    else
      RouteApiRequest(RoutesOnly(CrudRoutes(options)), request, context, getUser)
  }

  /** Every generated route sits on the base path or the item path, so a slug
      that matches neither matches no route. */
  lemma CrudPathsMiss(options: CrudOptions, slug: seq<string>)
    requires MatchRoutePath(CompileRoutePath(Some(BasePath(options))), slug).None?
    requires MatchRoutePath(CompileRoutePath(Some(ItemPath(options))), slug).None?
    ensures forall i :: 0 <= i < |CrudRoutes(options)| ==>
              MatchRoutePath(CompileRoutePath(CrudRoutes(options)[i].path), slug).None?
  {
    forall i | 0 <= i < |CrudRoutes(options)|
      ensures MatchRoutePath(CompileRoutePath(CrudRoutes(options)[i].path), slug).None?
    {
      CrudRouteIsGenerated(options, i);
    }
  }

  // ---------------------------------------------------------------------------
  // Properties of the table
  // ---------------------------------------------------------------------------

  /** The list route is always first: GET on the base path, with the list policy. */
  lemma ListRouteFirst(options: CrudOptions)
    ensures var r := CrudRoutes(options)[0];
            && NormalizeApiMethods(r.methods) == ["GET"]
            && r.path == Some(BasePath(options))
            && r.auth == PolicyFor(options, List).auth
            && r.roles == PolicyFor(options, List).roles
            && r.resolveUser == PolicyFor(options, List).resolveUser
            && r.canAccess.None?
  {
    NormalizeKnown("GET");
    SingleMethod("GET");
  }

  /** The table holds one route per present handler, in the order list,
      create, update, delete; each on its path, with its own policy. */
  lemma CrudRouteTable(options: CrudOptions)
    ensures var h := options.handlers;
            |CrudRoutes(options)| ==
              1 + (if h.create.Some? then 1 else 0) + (if h.update.Some? then 1 else 0) + (if h.delete.Some? then 1 else 0)
    ensures var h := options.handlers;
            var routes := CrudRoutes(options);
            var ci := if h.create.Some? then 2 else 1;
            && (h.create.Some? ==> routes[1] == CreateRoute(options, h.create.value))
            && (h.update.Some? ==> routes[ci] == UpdateRoute(options, h.update.value))
            && (h.delete.Some? ==> routes[|routes| - 1] == DeleteRoute(options, h.delete.value))
  {
  }

  /** The methods each generated route answers, after normalisation. */
  lemma GeneratedMethods(options: CrudOptions)
    ensures options.handlers.create.Some? ==>
              NormalizeApiMethods(CreateRoute(options, options.handlers.create.value).methods) == ["POST"]
    ensures options.handlers.update.Some? ==>
              forall m :: m in NormalizeApiMethods(UpdateRoute(options, options.handlers.update.value).methods) <==>
                          m == "PUT" || m == "PATCH"
    ensures options.handlers.delete.Some? ==>
              NormalizeApiMethods(DeleteRoute(options, options.handlers.delete.value).methods) == ["DELETE"]
  {
    NormalizeKnown("POST");
    SingleMethod("POST");
    NormalizeKnown("DELETE");
    SingleMethod("DELETE");
    NormalizeKnown("PUT");
    NormalizeKnown("PATCH");
    TwoMethods("PUT", "PATCH");
  }

  /** Every generated handler answers with a response as long as the error
      hook does: whatever else it calls, validation hooks included, throws
      inside the `try`. */
  lemma GeneratedHandlersNeverThrow(options: CrudOptions, i: nat, ctx: ApiContext)
    requires UnhandledAlwaysAnswers(options)
    requires i < |CrudRoutes(options)|
    ensures CrudRoutes(options)[i].handler(ctx).Returns?
  {
    CrudRouteIsGenerated(options, i);
    var h := options.handlers;
    var r := CrudRoutes(options)[i];
    if r == ListRoute(options) {
      ListAnswers(options, ctx);
    } else if h.create.Some? && r == CreateRoute(options, h.create.value) {
      CreateAnswers(options, h.create.value, ctx);
    } else if h.update.Some? && r == UpdateRoute(options, h.update.value) {
      UpdateAnswers(options, h.update.value, ctx);
    } else {
      DeleteAnswers(options, h.delete.value, ctx);
    }
  }

  lemma FailAnswers(options: CrudOptions, op: Operation, error: JsValue)
    requires UnhandledAlwaysAnswers(options)
    ensures Fail(options, op, error).response.Returns?
  {
  }

  lemma AnswerAnswers(options: CrudOptions, op: Operation, hook: Outcome<Response>)
    requires UnhandledAlwaysAnswers(options)
    ensures Answer(options, op, hook).response.Returns?
  {
    if hook.Throws? {
      FailAnswers(options, op, hook.error);
    }
  }

  lemma CompleteAnswers(options: CrudOptions, op: Operation, data: JsValue, status: int)
    requires UnhandledAlwaysAnswers(options)
    ensures Complete(options, op, data, status).response.Returns?
  {
  }

  lemma ListAnswers(options: CrudOptions, ctx: ApiContext)
    requires UnhandledAlwaysAnswers(options)
    ensures ListOp(options, ctx).response.Returns?
  {
  }

  lemma CreateAnswers(options: CrudOptions, create: HandlerArgs -> Outcome<JsValue>, ctx: ApiContext)
    requires UnhandledAlwaysAnswers(options)
    ensures CreateOp(options, create, ctx).response.Returns?
  {
    match ParseOperationInput(options, Create, options.parseCreateInput, ctx)
    case Throws(e) => FailAnswers(options, Create, e);
    case Returns(InputRejected(_)) =>
    case Returns(InputOk(input)) =>
      match create(HandlerArgs(ctx.request, ctx, None, None, Some(input)))
      case Throws(e) => FailAnswers(options, Create, e);
      case Returns(created) => CompleteAnswers(options, Create, created, 201);
  }

  lemma UpdateAnswers(options: CrudOptions, update: HandlerArgs -> Outcome<JsValue>, ctx: ApiContext)
    requires UnhandledAlwaysAnswers(options)
    ensures UpdateOp(options, update, ctx).response.Returns?
  {
    match ResolveId(options, ctx)
    case Throws(e) => FailAnswers(options, Update, e);
    case Returns(id) =>
      if id == JNull {
        AnswerAnswers(options, Update, InvalidId(options));
      } else {
        match ParseOperationInput(options, Update, options.parseUpdateInput, ctx)
        case Throws(e) => FailAnswers(options, Update, e);
        case Returns(InputRejected(_)) =>
        case Returns(InputOk(input)) =>
          match update(HandlerArgs(ctx.request, ctx, None, Some(id), Some(input)))
          case Throws(e) => FailAnswers(options, Update, e);
          case Returns(updated) => CompleteAnswers(options, Update, updated, 200);
      }
  }

  lemma DeleteAnswers(options: CrudOptions, delete: HandlerArgs -> Outcome<JsValue>, ctx: ApiContext)
    requires UnhandledAlwaysAnswers(options)
    ensures DeleteOp(options, delete, ctx).response.Returns?
  {
    match ResolveId(options, ctx)
    case Throws(e) => FailAnswers(options, Delete, e);
    case Returns(id) =>
      if id == JNull {
        AnswerAnswers(options, Delete, InvalidId(options));
      } else {
        match delete(HandlerArgs(ctx.request, ctx, None, Some(id), None))
        case Throws(e) => FailAnswers(options, Delete, e);
        case Returns(deleted) => CompleteAnswers(options, Delete, if Nullish(deleted) then JNull else deleted, 200);
      }
  }

  /** Each route of the table is one of the four generated routes. */
  lemma CrudRouteIsGenerated(options: CrudOptions, i: nat)
    requires i < |CrudRoutes(options)|
    ensures var h := options.handlers;
            var r := CrudRoutes(options)[i];
            || r == ListRoute(options)
            || (h.create.Some? && r == CreateRoute(options, h.create.value))
            || (h.update.Some? && r == UpdateRoute(options, h.update.value))
            || (h.delete.Some? && r == DeleteRoute(options, h.delete.value))
  {
    var h := options.handlers;
    var c := if h.create.Some? then [CreateRoute(options, h.create.value)] else [];
    var u := if h.update.Some? then [UpdateRoute(options, h.update.value)] else [];
    var d := if h.delete.Some? then [DeleteRoute(options, h.delete.value)] else [];
    assert CrudRoutes(options) == [ListRoute(options)] + c + u + d;
    InFourParts(ListRoute(options), c, u, d, i);
  }

  lemma InFourParts<T>(a: T, b: seq<T>, c: seq<T>, d: seq<T>, i: nat)
    requires i < |[a] + b + c + d|
    ensures var x := ([a] + b + c + d)[i]; x == a || x in b || x in c || x in d
  {
  }

  // ---------------------------------------------------------------------------
  // Properties of the pipeline
  // ---------------------------------------------------------------------------

  /** A missing or rejected id answers before the body is read or a handler
      runs, and nothing is revalidated. A throwing `onInvalidId` is caught and
      answered by the error hook. */
  lemma InvalidIdShortCircuits(options: CrudOptions, handler: HandlerArgs -> Outcome<JsValue>, ctx: ApiContext)
    requires ResolveId(options, ctx) == Returns(JNull)
    ensures InvalidId(options).Returns? ==>
              && UpdateOp(options, handler, ctx) == OpResult(InvalidId(options), [])
              && DeleteOp(options, handler, ctx) == OpResult(InvalidId(options), [])
    ensures InvalidId(options).Throws? ==>
              && UpdateOp(options, handler, ctx) == OpResult(Unhandled(options, InvalidId(options).error, Update), [])
              && DeleteOp(options, handler, ctx) == OpResult(Unhandled(options, InvalidId(options).error, Delete), [])
    ensures options.onInvalidId.None? ==> InvalidId(options) == Returns(Failure(400, "invalid_id"))
  {
  }

  /** With the default parser, an id is invalid exactly when the bound segment
      is missing or blank; otherwise it is the trimmed segment. */
  lemma DefaultIdResolution(options: CrudOptions, ctx: ApiContext)
    requires options.parseId.None?
    ensures var name := IdParamName(options.idParam);
            ResolveId(options, ctx) == Returns(JNull) <==>
              name !in ctx.params || AllWhitespace(ctx.params[name])
    ensures var name := IdParamName(options.idParam);
            name in ctx.params && !AllWhitespace(ctx.params[name]) ==>
              ResolveId(options, ctx) == Returns(JStr(Trim(ctx.params[name])))
  {
  }

  /** A body that is not a JSON record is rejected before any parser runs. */
  lemma InvalidBodyRejected(options: CrudOptions, op: Operation, parseInput: Option<ParseArgs -> Outcome<JsValue>>,
                            ctx: ApiContext)
    requires !(ctx.request.body.JsonBody? && IsJsonRecord(ctx.request.body.value))
    ensures var hook := InvalidJsonBody(options, OperationName(op));
            hook.Returns? ==> ParseOperationInput(options, op, parseInput, ctx) == Returns(InputRejected(hook.value))
    ensures var hook := InvalidJsonBody(options, OperationName(op));
            hook.Throws? ==> ParseOperationInput(options, op, parseInput, ctx) == Throws(hook.error)
    ensures options.onInvalidJsonBody.None? ==>
              InvalidJsonBody(options, OperationName(op)) == Returns(Failure(400, OperationName(op) + ".invalid_json_body"))
  {
  }

  /** Without a parser the record body is the input; a parser's `null` or
      `undefined` is a rejection (or the hook's throw); any other result is
      the input. */
  lemma InputFromBody(options: CrudOptions, op: Operation, parseInput: Option<ParseArgs -> Outcome<JsValue>>,
                      ctx: ApiContext, body: JsValue)
    requires ctx.request.body == JsonBody(body) && IsJsonRecord(body)
    ensures parseInput.None? ==> ParseOperationInput(options, op, parseInput, ctx) == Returns(InputOk(body))
    ensures parseInput.Some? && parseInput.value(ParseArgs(body, ctx.request, ctx)).Returns? ==>
              var input := parseInput.value(ParseArgs(body, ctx.request, ctx)).value;
              var hook := InvalidInput(options, OperationName(op));
              var r := ParseOperationInput(options, op, parseInput, ctx);
              && (!Nullish(input) ==> r == Returns(InputOk(input)))
              && (Nullish(input) && hook.Returns? ==> r == Returns(InputRejected(hook.value)))
              && (Nullish(input) && hook.Throws? ==> r == Throws(hook.error))
  {
  }

  /** Anything thrown while the input is read, by the parser or by a
      validation hook, is answered by the error hook. */
  lemma InputFailureIsCaught(options: CrudOptions, create: HandlerArgs -> Outcome<JsValue>, ctx: ApiContext,
                             error: JsValue)
    requires ParseOperationInput(options, Create, options.parseCreateInput, ctx) == Throws(error)
    ensures CreateOp(options, create, ctx) == OpResult(Unhandled(options, error, Create), [])
  {
  }

  /** A create with an accepted input and a returning handler answers 201 with
      the envelope; nothing is revalidated when no paths are configured. */
  lemma CreateSucceeds(options: CrudOptions, create: HandlerArgs -> Outcome<JsValue>, ctx: ApiContext,
                       input: JsValue, created: JsValue)
    requires ParseOperationInput(options, Create, options.parseCreateInput, ctx) == Returns(InputOk(input))
    requires create(HandlerArgs(ctx.request, ctx, None, None, Some(input))) == Returns(created)
    requires Create !in options.revalidateByOperation
    ensures CreateOp(options, create, ctx) == OpResult(Returns(Success(Create, created, 201)), [])
    ensures Success(Create, created, 201) ==
            JsonResponse(201, JObject(map["ok" := JBool(true), "operation" := JStr("create"), "data" := created]), None)
  {
  }

  /** An update with a valid id, an accepted input and a returning handler
      completes with the 200 envelope holding the updated data. */
  lemma UpdateSucceeds(options: CrudOptions, update: HandlerArgs -> Outcome<JsValue>, ctx: ApiContext,
                       id: JsValue, input: JsValue, updated: JsValue)
    requires ResolveId(options, ctx) == Returns(id) && id != JNull
    requires ParseOperationInput(options, Update, options.parseUpdateInput, ctx) == Returns(InputOk(input))
    requires update(HandlerArgs(ctx.request, ctx, None, Some(id), Some(input))) == Returns(updated)
    ensures UpdateOp(options, update, ctx) == Complete(options, Update, updated, 200)
    ensures Update !in options.revalidateByOperation ==>
              UpdateOp(options, update, ctx) ==
              OpResult(Returns(JsonResponse(200, JObject(map["ok" := JBool(true), "operation" := JStr("update"),
                                                              "data" := updated]), None)), [])
  {
  }

  /** A delete with a valid id whose handler returns a value that is neither
      `null` nor `undefined` completes with the 200 envelope holding it. */
  lemma DeleteSucceeds(options: CrudOptions, delete: HandlerArgs -> Outcome<JsValue>, ctx: ApiContext,
                       id: JsValue, deleted: JsValue)
    requires ResolveId(options, ctx) == Returns(id) && id != JNull
    requires delete(HandlerArgs(ctx.request, ctx, None, Some(id), None)) == Returns(deleted) && !Nullish(deleted)
    ensures DeleteOp(options, delete, ctx) == Complete(options, Delete, deleted, 200)
    ensures Delete !in options.revalidateByOperation ==>
              DeleteOp(options, delete, ctx) ==
              OpResult(Returns(JsonResponse(200, JObject(map["ok" := JBool(true), "operation" := JStr("delete"),
                                                              "data" := deleted]), None)), [])
  {
  }

  /** After a successful handler, the configured paths are revalidated (each
      distinct non-blank path once, in first-occurrence order) before the 200
      or 201 envelope, when the adapter never fails. */
  lemma RevalidatesAfterSuccess(options: CrudOptions, op: Operation, data: JsValue, status: int,
                                revalidate: string -> Outcome<JsValue>)
    requires options.revalidation == Revalidation.Configured(revalidate)
    requires forall s :: revalidate(s).Returns?
    requires op in options.revalidateByOperation
    ensures var paths := options.revalidateByOperation[op];
            Complete(options, op, data, status) ==
              OpResult(Returns(Success(op, data, status)), Revalidation.Nub(Revalidation.Candidates(paths)))
  {
    var paths := options.revalidateByOperation[op];
    Revalidation.RevalidatePathsOnce(revalidate, paths);
    if |paths| == 0 {
      assert Revalidation.Candidates(paths) == [];
    }
  }

  /** A failing revalidation turns the success into the unhandled-error answer. */
  lemma RevalidationFailureIsUnhandled(options: CrudOptions, op: Operation, data: JsValue, status: int)
    requires RevalidateAfter(options, op).failure.Some?
    ensures Complete(options, op, data, status).response ==
            Unhandled(options, RevalidateAfter(options, op).failure.value, op)
  {
  }

  /** Without an adapter, an operation with configured paths fails after its handler. */
  lemma UnconfiguredRevalidationFails(options: CrudOptions, op: Operation, data: JsValue, status: int)
    requires options.revalidation.Unconfigured? && options.onUnhandledError.None?
    requires op in options.revalidateByOperation
    requires |Revalidation.Candidates(options.revalidateByOperation[op])| > 0
    ensures var r := Complete(options, op, data, status).response;
            r == Returns(JsonResponse(500, JObject(map["ok" := JBool(false), "error" := JStr("internal_error"),
                                                       "message" := JStr(Revalidation.NotConfigured.message)]), None))
  {
    var paths := options.revalidateByOperation[op];
    Revalidation.UnconfiguredFailsOnFirstPath(paths, []);
    Revalidation.WithoutNothing(Revalidation.Candidates(paths));
  }

  /** Anything a handler throws becomes the unhandled-error answer: by default
      500 with the error's message, or `Unexpected error` for a non-Error. */
  lemma HandlerErrorIsCaught(options: CrudOptions, ctx: ApiContext, error: JsValue)
    requires ctx.request.searchParams.Returns?
    requires options.handlers.list(HandlerArgs(ctx.request, ctx, Some(ctx.request.searchParams.value), None, None)) == Throws(error)
    requires options.onUnhandledError.None?
    ensures ListOp(options, ctx).response ==
            Returns(JsonResponse(500, JObject(map["ok" := JBool(false), "error" := JStr("internal_error"),
                                                  "message" := JStr(if error.JError? then error.message else "Unexpected error")]), None))
  {
  }

  /** The error hook runs in the `catch`: when it throws too, nothing catches
      it, and the list route's handler rejects with its error. */
  lemma ThrowingErrorHookEscapes(options: CrudOptions, ctx: ApiContext, error: JsValue, thrown: JsValue)
    requires ctx.request.searchParams.Returns?
    requires options.handlers.list(HandlerArgs(ctx.request, ctx, Some(ctx.request.searchParams.value), None, None)) == Throws(error)
    requires options.onUnhandledError.Some? && options.onUnhandledError.value(error, "list") == Throws(thrown)
    ensures CrudRoutes(options)[0].handler(ctx) == Throws(thrown)
  {
  }

  /** A delete handler returning `null` or `undefined` answers with `data: null`. */
  lemma DeleteNullishIsNull(options: CrudOptions, delete: HandlerArgs -> Outcome<JsValue>, ctx: ApiContext,
                            id: JsValue, deleted: JsValue)
    requires ResolveId(options, ctx) == Returns(id) && id != JNull
    requires delete(HandlerArgs(ctx.request, ctx, None, Some(id), None)) == Returns(deleted) && Nullish(deleted)
    requires Delete !in options.revalidateByOperation
    ensures DeleteOp(options, delete, ctx) == OpResult(Returns(Success(Delete, JNull, 200)), [])
  {
  }

  // ---------------------------------------------------------------------------
  // The generated router end to end
  // ---------------------------------------------------------------------------

  /** A slug matching the base route never matches the item route: the item
      route has one segment more. */
  lemma ItemRouteMissesBaseSlug(options: CrudOptions, slug: seq<string>)
    requires MatchRoutePath(CompileRoutePath(Some(BasePath(options))), slug).Some?
    ensures MatchRoutePath(CompileRoutePath(Some(ItemPath(options))), slug).None?
  {
    ItemPathCompiles(BasePath(options), IdParamName(options.idParam));
  }

  /** An id parameter name holding `/` is never bound by the item route, so
      every update and delete through it finds no id. */
  lemma SlashedIdParamIsInvalid(options: CrudOptions, slug: seq<string>, ctx: ApiContext)
    requires '/' in IdParamName(options.idParam)
    requires MatchRoutePath(CompileRoutePath(Some(ItemPath(options))), slug) == Some(ctx.params)
    ensures IdParamName(options.idParam) !in ctx.params
    ensures ResolveId(options, ctx) == Returns(JNull)
  {
    SlashedNameNeverBound(BasePath(options), IdParamName(options.idParam));
  }

  /** Without a create handler, every route after the list route is an item route. */
  lemma LaterRoutesAreItemRoutes(options: CrudOptions)
    requires options.handlers.create.None?
    ensures var routes := CrudRoutes(options);
            forall i :: 1 <= i < |routes| ==> routes[i].path == Some(ItemPath(options))
  {
  }

  /** On a slug matching the base path, only the list route matches. */
  lemma OnlyListRouteOnBase(options: CrudOptions, slug: seq<string>)
    requires options.handlers.create.None?
    requires MatchRoutePath(CompileRoutePath(Some(BasePath(options))), slug).Some?
    ensures var routes := CrudRoutes(options);
            && PathHit(CompileApiRoute(routes[0]), slug)
            && CompileApiRoute(routes[0]).methods == ["GET"]
            && forall i :: 1 <= i < |routes| ==> !PathHit(CompileApiRoute(routes[i]), slug)
  {
    ListRouteFirst(options);
    LaterRoutesAreItemRoutes(options);
    ItemRouteMissesBaseSlug(options, slug);
  }

  /** A POST never matches a GET-only route. */
  lemma PostMissesGetRoute(verb: JsValue)
    requires NormalizeApiMethod(verb) == Some("POST")
    ensures !MethodMatchesRoute(["GET"], RequestMethod(verb))
  {
    MethodMatchIff(["GET"], verb);
    assert "ANY" !in ["GET"];
  }

  /** A table whose only route on the slug is a GET route: a POST matches
      nothing there. */
  lemma PostToGetOnlyPath(compiled: seq<CompiledApiRoute>, slug: seq<string>, verb: JsValue)
    requires |compiled| > 0 && compiled[0].methods == ["GET"]
    requires forall i :: 1 <= i < |compiled| ==> !PathHit(compiled[i], slug)
    requires NormalizeApiMethod(verb) == Some("POST")
    ensures forall i :: 0 <= i < |compiled| ==> !FullHit(compiled[i], slug, RequestMethod(verb))
  {
    PostMissesGetRoute(verb);
    GetOnlyMissesMethod(compiled, slug, RequestMethod(verb));
  }

  /** A method the first route refuses matches nothing in a table whose other
      routes miss the path. */
  lemma GetOnlyMissesMethod(compiled: seq<CompiledApiRoute>, slug: seq<string>, requestMethod: string)
    requires |compiled| > 0 && !MethodMatchesRoute(compiled[0].methods, requestMethod)
    requires forall i :: 1 <= i < |compiled| ==> !PathHit(compiled[i], slug)
    ensures forall i :: 0 <= i < |compiled| ==> !FullHit(compiled[i], slug, requestMethod)
  {
    forall i | 0 <= i < |compiled| ensures !FullHit(compiled[i], slug, requestMethod) {
      if i == 0 {
        MethodMissIsMiss(compiled[0], slug, requestMethod);
      } else {
        PathMissIsMiss(compiled[i], slug, requestMethod);
      }
    }
  }

  lemma MethodMissIsMiss(c: CompiledApiRoute, slug: seq<string>, requestMethod: string)
    requires !MethodMatchesRoute(c.methods, requestMethod)
    ensures !FullHit(c, slug, requestMethod)
  {
  }

  lemma PathMissIsMiss(c: CompiledApiRoute, slug: seq<string>, requestMethod: string)
    requires !PathHit(c, slug)
    ensures !FullHit(c, slug, requestMethod)
  {
  }

  /** In such a table, GET is the one method to report. */
  lemma GetOnlyPathAllows(compiled: seq<CompiledApiRoute>, slug: seq<string>)
    requires |compiled| > 0
    requires PathHit(compiled[0], slug) && compiled[0].methods == ["GET"]
    requires forall i :: 1 <= i < |compiled| ==> !PathHit(compiled[i], slug)
    ensures forall m :: AllowedOnPath(compiled, slug, m) <==> m == "GET"
  {
    forall m ensures AllowedOnPath(compiled, slug, m) <==> m == "GET" {
      if AllowedOnPath(compiled, slug, m) {
        var i :| 0 <= i < |compiled| && PathHit(compiled[i], slug) && m in compiled[i].methods;
        assert i == 0;
      }
    }
  }

  /** The router over such a table refuses a POST with 405 and `Allow: GET`. */
  lemma GetOnlyPathRefusesPost(routes: seq<ApiRoute>, request: ApiRequest, context: RouteContext,
                               getUser: Outcome<JsValue>)
    requires |routes| > 0
    requires PathHit(CompileApiRoute(routes[0]), context.slug) && CompileApiRoute(routes[0]).methods == ["GET"]
    requires forall i :: 1 <= i < |routes| ==> !PathHit(CompileApiRoute(routes[i]), context.slug)
    requires NormalizeApiMethod(request.verb) == Some("POST")
    ensures var r := RouteApiRequest(RoutesOnly(routes), request, context, getUser);
            r.Returns? && r.value.JsonResponse? && r.value.status == 405 && r.value.allow == Some("GET")
  {
    var options := RoutesOnly(routes);
    GetOnlyPathCollectsGet(routes, request, context);
    var allowed := Landing(options, request, context).allowed;
    ExhaustedAnswer(options, request, context, getUser);
    UnmatchedIsMethodNotAllowed(options, request, context, allowed);
  }

  /** In such a table a POST lands nowhere, and GET is the one method collected. */
  lemma GetOnlyPathCollectsGet(routes: seq<ApiRoute>, request: ApiRequest, context: RouteContext)
    requires |routes| > 0
    requires PathHit(CompileApiRoute(routes[0]), context.slug) && CompileApiRoute(routes[0]).methods == ["GET"]
    requires forall i :: 1 <= i < |routes| ==> !PathHit(CompileApiRoute(routes[i]), context.slug)
    requires NormalizeApiMethod(request.verb) == Some("POST")
    ensures Landing(RoutesOnly(routes), request, context).Exhausted?
    ensures StringOrder.Distinct(Landing(RoutesOnly(routes), request, context).allowed)
    ensures exists m :: m in Landing(RoutesOnly(routes), request, context).allowed && |m| > 0
    ensures StringOrder.Sort(Landing(RoutesOnly(routes), request, context).allowed) == ["GET"]
  {
    var options := RoutesOnly(routes);
    var compiled := CompileApiRoutes(routes);
    PostToGetOnlyPath(compiled, context.slug, request.verb);
    GetOnlyPathAllows(compiled, context.slug);
    ApiRouter.PathOnlyMatchCollects(options, request, context, 0);
    SortedAllowed(options, request, context);
    StringOrder.SortedUnique(StringOrder.Sort(Landing(options, request, context).allowed), ["GET"]);
  }

  /** A POST to the base path of a table without a create handler is refused
      with 405 and `Allow: GET`, since the list route is the only route there. */
  lemma PostWithoutCreateIsMethodNotAllowed(options: CrudOptions, request: ApiRequest, context: RouteContext,
                                            getUser: Outcome<JsValue>)
    requires options.handlers.create.None?
    requires MatchRoutePath(CompileRoutePath(Some(BasePath(options))), context.slug).Some?
    requires NormalizeApiMethod(request.verb) == Some("POST")
    ensures var r := CrudRouter(options, request, context, getUser);
            r.Returns? && r.value.JsonResponse? && r.value.status == 405 && r.value.allow == Some("GET")
  {
    OnlyListRouteOnBase(options, context.slug);
    GetOnlyPathRefusesPost(CrudRoutes(options), request, context, getUser);
  }
}
