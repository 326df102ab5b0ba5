# Module SDK core, modelled in Dafny

This project models the server-side core of the `skitsaas-sdk` module SDK. The SDK is the library a platform module uses to:

- declare its API routes and page routes;
- guard them with an authorisation ladder;
- generate CRUD endpoints for a data table;
- describe itself in a manifest that the host validates;
- name its template components.

Every operation is a pure Dafny function over immutable datatypes. Its contract or a partner lemma states what the operation guarantees.

The modules follow the structure of the source:

| file | module | what it models |
|---|---|---|
| `js.dfy` | `Js` | The slice of JavaScript values the SDK inspects: truthiness, nullish values, `isJsonRecord`, and the outcome of a call that may throw. |
| `strings.dfy` | `Strings` | `trim` with the ECMAScript whitespace set, ASCII case mapping, slash stripping, and one-character `split` and `join`. |
| `order.dfy` | `StringOrder` | Lexicographic order and the sort applied to the `Allow` list. |
| `paths.dfy` | `RoutePaths` | Route patterns: `normalizePathSegments`, `compileRoutePath` and `matchRoutePath`. |
| `methods.dfy` | `ApiMethods` | `normalizeApiMethod`, `normalizeApiMethods` and `methodMatchesRoute`. |
| `roles.dfy` | `Roles` | `normalizeRoleValues`, `defaultReadRoles`, `getRoleSet` and `hasRequiredRole`. |
| `access.dfy` | `AccessControl` | The ladder both routers run: user lookup, `auth: 'user'`, `auth: 'admin'`, then the route's roles. |
| `scan.dfy` | `RouteScan` | The left-to-right walk over a compiled route table that both routers share. |
| `api_router.dfy` | `ApiRouter` | `createModuleApiRouter`, with its 401, 403, 404 and 405 answers. |
| `page_router.dfy` | `PageRouter` | `createModulePageRouter`. |
| `revalidation.dfy` | `Revalidation` | `revalidatePath` and `revalidatePaths`. |
| `crud_paths.dfy` | `CrudPaths` | The base path and the item path of the CRUD router. |
| `crud.dfy` | `DataTableCrud` | `createDataTableCrudApiRouter`: the route table and the request pipeline behind each route. |
| `key_scan.dfy` | `KeyScan` | The "invalid, duplicate or fresh" loop behind every list check of the manifest validator. |
| `manifest_ids.dfy` | `ManifestIds` | The component id pattern and the provider id pattern. |
| `manifest.dfy` | `ModuleManifest` | `validateModuleManifest`. |
| `contracts.dfy` | `DataTableContracts` | `normalizeSegment`, `buildComponentId`, the six-slot template contract and its pack entries. |
| `template_utils.dfy` | `TemplateUtils` | `mergeClassNames`, `readString`, `toStringOrNull`, `toStringOrFallback` and `toNumberOrFallback`. |
| `theme_messages.dfy` | `ThemeMessages` | `resolveThemeMessages`. |

External effects become parameters:

- **User lookup.** The auth adapter's `getUser` is the outcome it would give if asked. Lemmas show that a route that does not look up the user ignores this outcome.
- **Revalidation.** The revalidation adapter is a function from path to outcome. A run records which paths were handed over, in order.
- **Host callbacks.** Handlers, hooks, parsers and `canAccess` are function-typed fields that return an outcome, so any of them may throw. The role reader `readRoles` is the exception: it is a total function, so it never throws. A CRUD validation hook (`onInvalidJsonBody`, `onInvalidInput`, `onInvalidId`) runs inside the handler's `try`, so its throw is answered by `onUnhandledError`. A throw from `onUnhandledError` itself escapes the handler.

The main results:

- **Routers.** A request lands on the first route that matches it. With no path match, the API router answers 404. With a path match but no method match, it answers 405, and its `Allow` header holds exactly the non-`ANY` methods of the routes matching the path, sorted.
- **Route patterns.** Compiling a pattern is a normal form: rendering it and compiling again changes nothing. A match binds each parameter to its request segment; when two segments share a name, the later one wins.
- **Revalidation.** `revalidatePaths` hands each distinct, non-blank, trimmed path to the adapter once, in first-occurrence order.
- **Manifest.** The manifest validator returns no error exactly for the manifests described part by part by `ManifestValid`. The loop-based validator is never used to define that predicate.
- **Template contract.** When the module id and the resource normalise to plain words, every component id built by `createDataTableTemplateContract` passes the manifest's template check.

Something the model shows about the source: a segment ending in a dot survives `normalizeSegment` (`TrailingDotIdRejected`). The id built from it then holds two dots in a row, which the manifest's component id pattern rejects. So `buildComponentId` can produce ids that `validateModuleManifest` refuses.

## Model

| member | source | states |
|---|---|---|
| Strings.Trim | dist/server.js:1-6 | The trimmed string is no longer than the input. It has no whitespace at either end. It is empty exactly when the input is all whitespace. |
| Strings.TrimSurroundings | dist/server.js:1-6 | `trim` removes only whitespace: the input is some whitespace, then the result, then some whitespace. |
| Strings.TrimKeepsChars | dist/server.js:1-6 | Trimming adds no character: everything in the result was in the input. |
| Strings.TrimIgnoresSurroundingWhitespace | dist/server.js:1-6 | Whitespace added on either side does not change the trimmed value. |
| Strings.TrimIdempotent | dist/server.js:1-6 | Trimming twice is trimming once. |
| Strings.ToTrimmedString | dist/server.js:1-6 | A string reads as itself with the surrounding whitespace removed. Any non-string reads as the empty string. |
| Strings.ToLowerProperties | dist/server.js:266-276 | Lower-casing leaves no upper-case letter, is idempotent, keeps a trimmed string trimmed, and gives the empty string only for the empty string. |
| Strings.ToUpperProperties | dist/server.js:277-286 | Upper-casing leaves no lower-case letter, is idempotent and keeps a trimmed string trimmed. |
| Strings.Split | dist/server.js:305-318 | `split('/')` gives at least one piece, and no piece contains the separator. |
| Strings.SplitOfJoin | dist/server.js:305-318 | Splitting a join of separator-free pieces gives the pieces back. |
| Strings.JoinOfSplit | dist/server.js:305-318 | Joining the pieces of a split gives the string back. |
| Strings.StripLeadingDrops | dist/server.js:312 | `replace(/^\/+/, '')` drops only slashes from the front of the path. |
| Strings.StripTrailingDrops | dist/server.js:312 | `replace(/\/+$/, '')` drops only slashes from the end of the path. |
| StringOrder.Sort | dist/server.js:524-526 | Sorting the collected methods gives a strictly ascending sequence with the same elements. |
| StringOrder.SortedUnique | dist/server.js:524-526 | Two strictly ascending sequences with the same elements are equal, so the sorted `Allow` list is determined by the set alone. |
| StringOrder.LessTransitive | dist/server.js:524-526 | The order used for sorting is transitive. |
| StringOrder.LessTrichotomy | dist/server.js:524-526 | Any two strings are ordered one way, the other way, or are equal. |
| RoutePaths.NormalizePathSegments | dist/server.js:305-318 | Every normalised segment is non-empty, trimmed and slash-free. |
| RoutePaths.NormalizeIsPieces | dist/server.js:305-318 | The blank and `/` special cases and the edge-slash stripping never change the outcome. A pattern's segments are its trimmed, non-empty `/`-pieces. |
| RoutePaths.PiecesIgnoreTrim | dist/server.js:305-318 | Trimming a path first does not change its pieces. |
| RoutePaths.PiecesIgnoreEdgeSlashes | dist/server.js:305-318 | Stripping leading and trailing slashes does not change the pieces. |
| RoutePaths.CompileRoutePath | dist/server.js:319-332 | There is one segment per normalised piece. Each segment renders back to its piece, and a piece is a parameter exactly when it is `:` plus a name. |
| RoutePaths.CompileOfRender | dist/server.js:319-332 | Writing compiled segments back as `/a/:b` and compiling again gives the same segments. |
| RoutePaths.CompileIsNormalForm | dist/server.js:319-332 | Compiled patterns are a normal form: recompiling their rendering changes nothing. |
| RoutePaths.BindSegmentSound | dist/server.js:340-351 | One loop step keeps the loop invariant: the map's keys are the parameter names seen so far, and each parameter's last binding holds its request segment. |
| RoutePaths.Bind | dist/server.js:340-352 | The loop succeeds exactly when every request segment is non-empty and every literal equals its request segment. It then binds every parameter name, and the last occurrence of a name wins. |
| RoutePaths.MatchRoutePath | dist/server.js:333-353 | A match needs the same number of segments, every request segment non-empty and every literal equal. The parameter map's keys are exactly the parameter names, each bound to the request segment of its last occurrence. |
| ApiMethods.NormalizeApiMethod | dist/server.js:277-286 | A normalised method is one of the eight known methods, and only strings normalise. |
| ApiMethods.NormalizeIgnoresCase | dist/server.js:277-286 | Any known method written in lower case with surrounding whitespace normalises to that method. |
| ApiMethods.NormalizeIdempotent | dist/server.js:277-286 | Normalising a normalised method gives it back. |
| ApiMethods.NormalizeApiMethods | dist/server.js:287-304 | The result is a non-empty, duplicate-free set of known methods. It is exactly `[ANY]` when any entry names ANY. Otherwise it is exactly the listed methods, or `[GET]` when nothing valid is listed. |
| ApiMethods.ListedIff | dist/server.js:287-304 | A method is listed exactly when some entry of the source normalises to it. |
| ApiMethods.ListsAnyIff | dist/server.js:295-297 | The ANY short-circuit fires exactly when some entry normalises to ANY. |
| ApiMethods.DefaultMethodIsGet | dist/server.js:288 | A route without a truthy `method` accepts only GET. |
| ApiMethods.SingleMethod | dist/server.js:288 | A route declaring one method other than ANY accepts exactly that method. |
| ApiMethods.TwoMethods | dist/server.js:287-304 | A route declaring two methods other than ANY accepts exactly those two. |
| ApiMethods.OnlyListed | dist/server.js:287-304 | When the entries name one method only, with no ANY, the route's method set is exactly that method. |
| ApiMethods.RequestMethodNormalizesOnce | dist/server.js:432 | The router's own trim and upper-case of the request method does not change what `methodMatchesRoute` normalises it to. |
| ApiMethods.MethodMatchIff | dist/server.js:354-362 | A request matches a route exactly when the route takes ANY, or it lists the request's normalised method. |
| ApiMethods.MethodMatchesRoute | dist/server.js:354-362 | A route taking ANY accepts every request. Otherwise a request matches only when its method normalises to a known method the route lists, so an unknown method matches ANY routes alone. `MethodMatchIff` states the equivalence in both directions. |
| ApiMethods.UnknownMethodMatchesOnlyAny | dist/server.js:354-362 | A request with an unknown method matches only routes that take ANY. |
| Roles.NormalizeRoleValues | dist/server.js:266-276 | A role is in the set exactly when it is non-blank and some entry normalises to it. |
| Roles.NamesIff | dist/server.js:266-276 | An entry list names a role exactly when some index holds an entry that trims and lower-cases to it. |
| Roles.RolesAreCanonical | dist/server.js:266-276 | Every normalised role is non-empty, trimmed and free of upper-case letters. |
| Roles.RoleIgnoresCaseAndSpace | dist/server.js:266-276 | A role written in upper case with surrounding whitespace names its lower-case form. |
| Roles.DefaultAdminRoleSet | dist/server.js:265 | Without `adminRoles`, the admin role set is exactly `{admin}`. |
| Roles.DefaultReadRoles | dist/server.js:363-376 | The default reader returns the string `role` field and the string entries of the `roles` array of an object user, and nothing for any other user. |
| Roles.GetRoleSet | dist/server.js:377-385 | Every role read is canonical. Without `readRoles`, the roles come from the default reader. With `readRoles`, an array result gives the roles its entries name, a string result is one role, and anything else gives none. |
| Roles.ReaderNonListGrantsNothing | dist/server.js:379-383 | A reader that returns neither an array nor a string grants no role. |
| Roles.HasRequiredRoleIsIntersection | dist/server.js:386-396 | A requirement is met exactly when it is empty or it shares a role with the user. |
| Roles.HasRequiredRole | dist/server.js:386-396 | A requirement is met exactly when it names no role or the user holds one of the roles it names, that is, the two sets meet. |
| Roles.SharedRoleIsIntersection | dist/server.js:390-395 | A role held and required exists exactly when the user's and the required role sets intersect. |
| AccessControl.CheckAccess | dist/server.js:476-509 | The ladder answers 401 exactly when the route needs a user and there is none. It answers 403 exactly when a user lacks an admin role (on admin routes) or lacks all of the route's roles. Otherwise it passes. |
| AccessControl.DenialNeedsLookup | dist/server.js:449-456 | Every route whose ladder can deny also looks the user up, so no denial comes from a skipped lookup. |
| AccessControl.SkippedLookupPasses | dist/server.js:449-456 | A route that skips the lookup passes the ladder with the null user. |
| AccessControl.AdminGrantNeedsAdminRole | dist/server.js:482-495 | Passing on an admin route means a signed-in user with an admin role (or an empty admin list) and one of the route's roles (or none listed). |
| AccessControl.UserRoles | dist/server.js:467-475 | Without a user there are no roles. A signed-in user has exactly the roles `getRoleSet` reads for them. |
| RouteScan.ScanRoutesSpec | dist/server.js:434-446 | The loop stops at the first route matching on path and method, with its parameters. Otherwise no route matched both, and it collected, each once, exactly the non-ANY methods of the routes that matched on path only. |
| RouteScan.ScanRoutes | dist/server.js:434-446 | A found route is one of the table's routes, and the methods collected when nothing is found are pairwise distinct. `ScanRoutesSpec` states which route is found and which methods are collected. |
| RouteScan.ScanStepSpec | dist/server.js:434-446 | One iteration keeps the loop's specification. |
| RouteScan.AddMethods | dist/server.js:439-443 | Adding a route's methods keeps the set duplicate-free and adds exactly its non-ANY methods. |
| RouteScan.FoundIffSomeHit | dist/server.js:434-446 | The loop finds a route exactly when some route matches on path and method. |
| RouteScan.PathOnlyMatchCollects | dist/server.js:438-445 | When no route matches both, a route matching the path contributes each of its non-ANY methods. |
| ApiRouter.CompileApiRoutes | dist/server.js:413-420 | Each route is compiled on its own, in order. Every compiled route has a non-empty, duplicate-free list of known methods, and only canonical roles. |
| ApiRouter.CompileApiRoute | dist/server.js:413-420 | A compiled route keeps the compiled path pattern. Its methods are a non-empty list of distinct known methods. Its roles are exactly the non-blank roles its `roles` entries name, each in canonical form. |
| ApiRouter.MethodNotAllowedResponse | dist/server.js:403-409 | The answer is 405. It carries an `Allow` header exactly when the joined list is non-empty, and the header is that joined list. |
| ApiRouter.LandsOnFirstFullMatch | dist/server.js:434-446 | A request lands on the first route matching on path and method, with that route's parameters. It lands nowhere exactly when no route matches both. |
| ApiRouter.ExhaustedCollectsPathMethods | dist/server.js:434-446 | After a walk with no full match, the collected methods are exactly the non-ANY methods of the routes matching the path. |
| ApiRouter.AnyRoutesNeverCollected | dist/server.js:439-443 | A route taking ANY that matches the path always matches the method too, so the `!== 'ANY'` filter never drops a method. |
| ApiRouter.NoPathMatchIsNotFound | dist/server.js:524-534 | With no route matching the path, the answer is the `onNotFound` hook's, or 404. |
| ApiRouter.PathOnlyMatchIsMethodNotAllowed | dist/server.js:524-530 | When some route matches the path but none the method, and there is no hook, the answer is 405. Its `Allow` header lists, each once and sorted, the methods allowed on the path. |
| ApiRouter.UnmatchedAllowHeader | dist/server.js:524-530 | The default 405 for a non-empty collection lists exactly the collected methods, sorted, in `Allow`. |
| ApiRouter.UnmatchedIsMethodNotAllowed | dist/server.js:524-530 | With methods collected and no hook, the answer is the 405 built from the sorted methods. |
| ApiRouter.SortedAllowed | dist/server.js:525 | The sorted collection is strictly ascending and holds exactly the methods allowed on the path. |
| ApiRouter.ExhaustedAnswer | dist/server.js:524-534 | A request that lands nowhere is answered from the collected methods alone. |
| ApiRouter.Unmatched | dist/server.js:524-534 | Without collected methods the answer is the `onNotFound` hook's, or 404. With methods collected and no `onMethodNotAllowed` hook, it is the 405 that lists them sorted. |
| ApiRouter.RouteApiRequest | dist/server.js:428-535 | A request whose landed route asks for the user fails with the lookup's error when the lookup throws. A request matching no route's path gets the `onNotFound` answer or 404. A request matching some path but no method gets 405 when there is no `onMethodNotAllowed` hook. `LandsOnFirstFullMatch`, `FoundAnswer` and `ExhaustedAnswer` give the rest. |
| ApiRouter.SkippedLookupIsIgnored | dist/server.js:449-456 | When the landed route does not ask for the user, the answer does not depend on what `getUser` would return. |
| ApiRouter.FailedLookupPropagates | dist/server.js:454-456 | When the landed route asks for the user and the lookup throws, the request fails with that error before any check or handler. |
| ApiRouter.LandedContext | dist/server.js:457-462 | There is a handler context exactly when the request lands on a route. |
| ApiRouter.FoundAnswer | dist/server.js:457-522 | A landed request is answered by the ladder, `canAccess` and handler of its route, with that route's parameters. |
| ApiRouter.AdminRouteDenials | dist/server.js:482-495 | On an admin route without hooks, a missing user gets 401 and a user without an admin role gets 403. |
| ApiRouter.GuardAdmin | dist/server.js:482-495 | The guard of an admin route without hooks answers 401 without a user and 403 without an admin role. |
| ApiRouter.GrantedRunsHandler | dist/server.js:476-522 | A request that passes the ladder on a route without `canAccess` is answered by that route's handler, given its parameters and user. |
| ApiRouter.CanAccessDecides | dist/server.js:510-522 | A `Response` from `canAccess` is the answer as it is. `false` is a 403 without a hook, and a truthy value runs the handler. |
| PageRouter.ProbePages | dist/server.js:541-545 | A page route is hit exactly when its path matches, whatever the request method. No page route ever contributes an allowed method. |
| PageRouter.LandsOnFirstPathMatch | dist/server.js:541-545 | A page request lands on the first route matching its path, with its parameters. It lands nowhere exactly when none matches. |
| PageRouter.RoutePageRequest | dist/server.js:537-623 | A landed page that asks for the user fails with the lookup's error when the lookup throws. A request matching no page gets the `onNotFound` answer, or `null`. `LandsOnFirstPathMatch`, `DenialIsFinal` and `CanAccessByTruthiness` give the rest. |
| PageRouter.NothingCollected | dist/server.js:541-545 | The page walk never collects methods. |
| PageRouter.NoMatchIsNull | dist/server.js:619-622 | With no route matching, the answer is the `onNotFound` hook's, or `null`. |
| PageRouter.DefaultDenialIsNull | dist/server.js:574-607 | Without hooks, every denial by the ladder answers `null`. |
| PageRouter.CanAccessByTruthiness | dist/server.js:608-617 | A page's `canAccess` counts by truthiness alone. Any truthy value, even a response, runs the handler, and a falsy one is a 403 denial. |
| PageRouter.SkippedLookupIsIgnored | dist/server.js:548-555 | When the landed page does not ask for the user, the answer does not depend on `getUser`. |
| PageRouter.FailedLookupPropagates | dist/server.js:553-555 | A lookup that throws fails the page request. |
| PageRouter.DenialIsFinal | dist/server.js:541-607 | Without hooks, a page request landing on a route whose ladder denies answers `null`: later routes are not tried. |
| Revalidation.RevalidatePath | dist/server.js:145-152 | A blank path does nothing, not even the adapter lookup. Otherwise, without an adapter the call throws the configuration error, and with one it makes exactly one call with the trimmed path and fails exactly when that call fails. |
| Revalidation.RevalidatePathOfTrimmed | dist/server.js:145-152 | Revalidating an already trimmed path is the same as revalidating the raw one. |
| Revalidation.RunFollowsReference | dist/server.js:153-163 | The loop hands over a prefix of the distinct, unseen, non-blank trimmed paths in first-occurrence order. It hands over all of them unless a call fails, and then it stops at that call with its error. |
| Revalidation.RevalidateFrom | dist/server.js:153-163 | The loop makes at most one call per input path, and without an adapter it makes no call. |
| Revalidation.RevalidateFromCallsFresh | dist/server.js:155-162 | Every path the loop hands over is non-blank, trimmed and not seen before. |
| Revalidation.RevalidatePaths | dist/server.js:153-163 | At most one call per input path, each on a non-blank trimmed path, and none without an adapter. `RunFollowsReference` and `RevalidatePathsOnce` state the order and the distinctness. |
| Revalidation.RevalidatePathsOnce | dist/server.js:153-163 | With an adapter that never fails, each distinct non-blank trimmed path is revalidated exactly once, in first-occurrence order. |
| Revalidation.UnconfiguredFailsOnFirstPath | dist/server.js:153-163 | Without an adapter, the first non-blank path fails the run before any call, and a list with none does nothing. |
| Revalidation.CandidatesNonBlank | dist/server.js:156-159 | Every path considered is non-blank and trimmed. |
| CrudPaths.NormalizeBasePath | dist/datatables/crud.js:2-9 | The base path starts with `/`, and does not end with `/` unless it is `/`. |
| CrudPaths.BasePathKeepsRoute | dist/datatables/crud.js:2-9 | Normalising the base path never changes the route pattern it compiles to. |
| CrudPaths.BasePathKeepsPieces | dist/datatables/crud.js:2-9 | The normalised base path has the same path pieces as the configured one. |
| CrudPaths.IdParamName | dist/datatables/crud.js:87 | The id parameter name is non-empty and trimmed. It is `id` when none is set, or when the configured one is blank, and otherwise the configured name trimmed. |
| CrudPaths.ItemPathCompiles | dist/datatables/crud.js:10-15 | For every id parameter name, the item route is the base route followed by the compiled `:name` piece, which is at least one segment. For a slash-free name, as `idParam` always is once trimmed unless it holds `/`, that piece is the single parameter `name`. |
| CrudPaths.BuildItemPath | dist/datatables/crud.js:10-15 | The item path ends with `/:` and the id parameter name. Unless the base path is the root, it starts with the base path. `ItemPathCompiles` relates its compiled route to the base route. |
| CrudPaths.SlashedNameNeverBound | dist/datatables/crud.js:10-15 | A name holding `/`, such as `a/b`, is cut apart by compilation (into `:a` and the literal `b`), so the item route never binds a parameter under that name. |
| RoutePaths.ParamNamesSlashFree | dist/server.js:319-332 | No compiled parameter name contains a slash. |
| DataTableCrud.PolicyFor | dist/datatables/crud.js:82-84 | A configured policy is used as given. An operation without one gets the empty policy. |
| DataTableCrud.ParseJsonBody | dist/server.js:243-254 | The parsed body is a JSON record or `null`. It is a record exactly when the body parsed to one. |
| DataTableCrud.JsonRecordIsObject | dist/server.js:237-239 | A JSON record is exactly an object that is not an array; an `Error` instance counts as one. |
| DataTableCrud.ParseDefaultId | dist/datatables/crud.js:42-45 | The id is `null` exactly for a blank segment, and otherwise the trimmed segment. |
| DataTableCrud.ParseOperationInput | dist/datatables/crud.js:52-81 | An accepted input is truthy unless it came from a custom parser. |
| DataTableCrud.CrudRoutes | dist/datatables/crud.js:94-249 | The table has between one and four routes. |
| DataTableCrud.CrudRouteTable | dist/datatables/crud.js:94-249 | There is one route per present handler, in the order list, create, update, delete. Each route is the generated route for its operation. |
| DataTableCrud.ListRouteFirst | dist/datatables/crud.js:95-123 | The first route is always GET on the base path with the list policy and no `canAccess`. |
| DataTableCrud.GeneratedMethods | dist/datatables/crud.js:124-249 | Create accepts exactly POST, update exactly PUT and PATCH, and delete exactly DELETE. |
| DataTableCrud.CrudRouteIsGenerated | dist/datatables/crud.js:94-249 | Every route of the table is one of the four generated routes. |
| DataTableCrud.CrudPathsMiss | dist/datatables/crud.js:94-249 | A slug that matches neither the base route nor the item route matches no route of the table. |
| DataTableCrud.CrudRouter | dist/datatables/crud.js:85-253 | A slug matching neither the base path nor the item path is answered 404, whatever the method and the handlers. `CrudRouteTable` gives the routes it dispatches to. |
| DataTableCrud.GeneratedHandlersNeverThrow | dist/datatables/crud.js:105-247 | While `onUnhandledError` itself answers every error (the default one always does), every generated handler answers with a response. Whatever else it calls, validation hooks included, throws inside the `try`. |
| DataTableCrud.ThrowingErrorHookEscapes | dist/datatables/crud.js:119-121 | `onUnhandledError` runs in the `catch`: when it throws too, the route's handler rejects with that error, which the API router does not catch either. |
| DataTableCrud.InvalidIdShortCircuits | dist/datatables/crud.js:177-231 | On update and delete, a missing or rejected id answers with `onInvalidId` (`invalid_id`, 400, by default) before the body is read or a handler runs, and nothing is revalidated. If `onInvalidId` throws, `onUnhandledError` answers instead. |
| DataTableCrud.SlashedIdParamIsInvalid | dist/datatables/crud.js:87-88 | With an id parameter name holding `/`, the name is never among the bound parameters, so every update and delete finds no id. |
| DataTableCrud.DefaultIdResolution | dist/datatables/crud.js:179-180 | With the default parser, the id is invalid exactly when the bound segment is missing or blank, and otherwise it is the trimmed segment. |
| DataTableCrud.InvalidBodyRejected | dist/datatables/crud.js:53-59 | A body that is not a JSON record is rejected with the `onInvalidJsonBody` answer (`<operation>.invalid_json_body`, 400, by default) before any parser runs. A throw from that hook rejects input parsing with its error. |
| DataTableCrud.InputFromBody | dist/datatables/crud.js:60-80 | Without a parser, the record body is the input. A parser's `null` or `undefined` is rejected with the `onInvalidInput` answer, or that hook's throw, and anything else it returns is the input. |
| DataTableCrud.InputFailureIsCaught | dist/datatables/crud.js:136-162 | A throw while the input is read, by the parser or a validation hook, is answered by `onUnhandledError` and revalidates nothing. |
| DataTableCrud.CreateSucceeds | dist/datatables/crud.js:135-158 | A create with accepted input and a returning handler answers 201 with `{ok: true, operation: "create", data}`. |
| DataTableCrud.UpdateSucceeds | dist/datatables/crud.js:177-206 | An update with a valid id, accepted input and a returning handler completes with the updated data. Without configured revalidation, it answers 200 with `{ok: true, operation: "update", data}`. |
| DataTableCrud.DeleteSucceeds | dist/datatables/crud.js:225-242 | A delete with a valid id whose handler returns a value other than `null` or `undefined` completes with that value. Without configured revalidation, it answers 200 with `{ok: true, operation: "delete", data}`. |
| DataTableCrud.RevalidatesAfterSuccess | dist/datatables/crud.js:46-51 | After a successful handler, with an adapter that never fails, the answer is the success envelope and the paths revalidated are the operation's distinct non-blank trimmed paths, each once. |
| DataTableCrud.RevalidationFailureIsUnhandled | dist/datatables/crud.js:153-162 | A failing revalidation turns the success into the unhandled-error answer. |
| DataTableCrud.UnconfiguredRevalidationFails | dist/datatables/crud.js:153-162 | Without an adapter, an operation with configured paths answers 500 with the configuration error's message. |
| DataTableCrud.HandlerErrorIsCaught | dist/datatables/crud.js:34-41 | A handler's error becomes 500 `internal_error`, with the error's message or `Unexpected error` for a non-Error. |
| DataTableCrud.DeleteNullishIsNull | dist/datatables/crud.js:232-242 | A delete handler returning `null` or `undefined` answers with `data: null`. |
| DataTableCrud.ItemRouteMissesBaseSlug | dist/datatables/crud.js:10-15 | A slug matching the base route never matches the item route, whatever the id parameter name. |
| DataTableCrud.OnlyListRouteOnBase | dist/datatables/crud.js:94-249 | Without a create handler, only the GET list route matches the base path. |
| DataTableCrud.PostWithoutCreateIsMethodNotAllowed | dist/datatables/crud.js:250-252 | Without a create handler, a POST to the base path is refused with 405 and `Allow: GET`. |
| DataTableCrud.GetOnlyPathRefusesPost | dist/server.js:434-530 | A router whose only route on the path is GET refuses a POST with 405 and `Allow: GET`. |
| KeyScan.ScanKeysIsFirstOccurrence | dist/modules/manifest.js:61-76 | The loop's verdicts are the first-occurrence verdicts. An entry is fresh exactly when its key is valid and no earlier entry carries it. |
| KeyScan.ScanKeys | dist/modules/manifest.js:61-76 | There is one verdict per entry. An entry is invalid exactly when it has no valid key, and any other verdict carries the entry's key. The first valid entry is fresh exactly when its key was not seen. `ScanKeysIsFirstOccurrence` states every verdict. |
| KeyScan.AllFreshIff | dist/modules/manifest.js:61-76 | Every entry passes the key checks exactly when every key is valid and no key repeats. |
| KeyScan.Flatten | dist/modules/manifest.js:5 | The concatenated error list is empty exactly when every entry's errors are. |
| KeyScan.FlattenContains | dist/modules/manifest.js:5 | Every error of every entry is in the list. |
| ManifestIds.ComponentIdPatternIsMachine | dist/modules/manifest.js:6-7 | The character reading of `^[a-z0-9]+(?:[.-][a-z0-9]+)+$` agrees with the regular expression's state machine on every string. |
| ManifestIds.RunIsExpected | dist/modules/manifest.js:6-7 | After any prefix, the regular expression's state machine is in the state that prefix calls for. |
| ManifestIds.SingleRunRejected | dist/modules/manifest.js:6 | A single alphanumeric run such as `footer` is not a component id. |
| ManifestIds.DoubleSeparatorRejected | dist/modules/manifest.js:6 | Two separators in a row rule out a component id. |
| ModuleManifest.ValidateEmptyIff | dist/modules/manifest.js:4-204 | The validator returns no error exactly for the manifests valid part by part: required fields, aliases, access, slots, template pack, providers and payment methods. |
| ModuleManifest.Validate | dist/modules/manifest.js:4-204 | A blank module id is the first error reported. A blank version or display name is always reported. `ValidateEmptyIff` states exactly when no error is returned. |
| ModuleManifest.MissingModuleIdFirst | dist/modules/manifest.js:10-12 | A blank module id is the first error reported. |
| ModuleManifest.RequiredErrors | dist/modules/manifest.js:10-18 | Each of the three `_missing` codes is reported exactly when its field is blank. |
| ModuleManifest.AliasKey | dist/modules/manifest.js:30-42 | An alias has a key exactly when it is accepted: under its area's prefix, not the bare frontend root, and free of `?`, `#`, `[` and `]`. |
| ModuleManifest.AliasErrorsEmptyIff | dist/modules/manifest.js:19-49 | An alias list gives no error exactly when every alias is accepted and no two share a key. |
| ModuleManifest.AliasInvalidReported | dist/modules/manifest.js:31-38 | An alias that is not accepted is reported with its raw text. |
| ModuleManifest.AliasDuplicateReported | dist/modules/manifest.js:43-46 | A later alias with an earlier alias's key is reported as a duplicate of that key. |
| ModuleManifest.TrailingSlashIgnored | dist/modules/manifest.js:40-42 | A trailing slash changes neither acceptance nor the key, so `/admin/x` and `/admin/x/` collide. |
| ModuleManifest.AccessErrors | dist/modules/manifest.js:53-58 | There is at most one error, and none exactly when the access is absent, `public`, `user` or `admin`. |
| ModuleManifest.ComponentKey | dist/modules/manifest.js:63-64 | A key is the trimmed, lower-cased id and matches the component id pattern. |
| ModuleManifest.ComponentKeyRejects | dist/modules/manifest.js:85-86 | An id whose trimmed, lower-cased form misses the pattern has no key. |
| ModuleManifest.SlotEntryErrors | dist/modules/manifest.js:64-75 | A slot gives no error exactly when its id is fresh and its handler is a function. |
| ModuleManifest.SlotErrorsEmptyIff | dist/modules/manifest.js:59-77 | The slots give no error exactly when every slot has a valid id and a function handler, and no id repeats. |
| ModuleManifest.SlotHandlerReported | dist/modules/manifest.js:73-75 | The first slot with a given valid id has its handler checked and reported. |
| ModuleManifest.RejectedSlotSkipsHandler | dist/modules/manifest.js:64-71 | A slot rejected on its id is not checked further: its handler does not change the errors. |
| ModuleManifest.TemplateErrorsEmptyIff | dist/modules/manifest.js:78-100 | The template pack gives no error exactly when each of its two lists has valid, non-repeating component ids. |
| ModuleManifest.DefaultAndOverrideMayShareId | dist/modules/manifest.js:97-100 | The same component id may appear once among the defaults and once among the overrides, since each list has its own `seen` set. |
| ModuleManifest.IdKey | dist/modules/manifest.js:105-109 | A provider or payment method key is the trimmed id, and matches the provider id pattern. |
| ModuleManifest.UpperCaseIdRejected | dist/modules/manifest.js:105-111 | An id is never lower-cased into validity: one upper-case letter rejects it. |
| ModuleManifest.PathErrors | dist/modules/manifest.js:132-145 | A route path gives one error exactly when it is present and, trimmed, empty, not starting with `/`, or holding `?`, `#`, `[` or `]`. |
| ModuleManifest.ProviderEntryErrors | dist/modules/manifest.js:107-148 | A provider gives no error exactly when its id is fresh and its kind, flow and three paths are valid. |
| ModuleManifest.ProviderErrorsEmptyIff | dist/modules/manifest.js:101-150 | The providers give no error exactly when every provider is valid and no id repeats. |
| ModuleManifest.OrderTypeErrors | dist/modules/manifest.js:168-182 | There is at most one order-type error, and none exactly when the defaulted order types form a non-empty array of `subscription` and `one_time` only. |
| ModuleManifest.UnknownOrderType | dist/modules/manifest.js:176-181 | The inner loop reports at most once, and does so exactly when some entry is neither `subscription` nor `one_time`. |
| ModuleManifest.MissingOrderTypesDefault | dist/modules/manifest.js:168-171 | Leaving the order types out accepts both kinds. |
| ModuleManifest.PaymentEntryErrors | dist/modules/manifest.js:157-200 | A payment method gives no error exactly when its id is fresh and its order types and four paths are valid. |
| ModuleManifest.PaymentErrorsEmptyIff | dist/modules/manifest.js:151-202 | The payment methods give no error exactly when every method is valid and no id repeats. |
| DataTableContracts.NormalizeSegment | dist/datatables/contracts.js:1-8 | A normalised segment has only `[a-z0-9.-]`, no `--`, and no dash at either end. |
| DataTableContracts.NormalizeFixedIff | dist/datatables/contracts.js:1-8 | The segments `normalizeSegment` leaves unchanged are exactly the normal ones. |
| DataTableContracts.NormalizeIdempotent | dist/datatables/contracts.js:1-8 | Normalising twice is normalising once. |
| DataTableContracts.ReplaceDisallowed | dist/datatables/contracts.js:5 | After replacement only `[a-z0-9.-]` remains, and a string already made of those is unchanged. |
| DataTableContracts.CollapseDashes | dist/datatables/contracts.js:6 | No `--` remains, the first character is kept, and a string without `--` is unchanged. |
| DataTableContracts.StripDashes | dist/datatables/contracts.js:7 | No dash remains at either end, and no disallowed character or `--` is introduced. |
| DataTableContracts.BuildComponentId | dist/datatables/contracts.js:14-22 | A built id is itself a normal segment. |
| DataTableContracts.BuildComponentIdThrowsIff | dist/datatables/contracts.js:14-22 | Building throws exactly when one of the three normalised segments is empty. |
| DataTableContracts.ComposeIdFirstError | dist/datatables/contracts.js:9-20 | The error names the first empty segment, in the order moduleId, resource, slot. |
| DataTableContracts.ComposeIdShape | dist/datatables/contracts.js:21 | A built id starts with `<moduleId>.datatable.` and ends with `.<slot>`, and nothing else is added. |
| DataTableContracts.BuildComponentIdStable | dist/datatables/contracts.js:14-22 | A built id is unchanged by normalisation, and rebuilding from the normalised parts gives it again. |
| DataTableContracts.ContractThrows | dist/datatables/contracts.js:23-56 | A contract exists exactly when moduleId and resource normalise to something, and the moduleId error comes first. |
| DataTableContracts.CreateContract | dist/datatables/contracts.js:23-56 | A contract is built exactly when moduleId and resource normalise to something. An empty moduleId gives its own error. A built contract has the six slots in key order. `ContractIds` and `ContractIdsDistinct` state the ids. |
| DataTableContracts.ContractSlots | dist/datatables/contracts.js:23-56 | A contract has the six slots in key order, each id being `buildComponentId` for that slot. |
| DataTableContracts.ContractIds | dist/datatables/contracts.js:23-56 | Each id is the slot name under `<moduleId>.datatable.<resource>`. |
| DataTableContracts.ContractIdsDistinct | dist/datatables/contracts.js:23-56 | The six component ids are pairwise different. |
| DataTableContracts.CreateEntry | dist/datatables/contracts.js:59-71 | An entry keeps the slot's id. Its description is the given one or the default. It carries a payload exactly when the given payload is truthy, and is locked exactly when the given lock is `true`. |
| DataTableContracts.CreateEntries | dist/datatables/contracts.js:57-72 | There is one entry per contract key, in key order. Each entry keeps its slot's component id. Its payload and lock come only from that slot's options: a payload must be truthy, and the lock is set only by `true`. |
| DataTableContracts.EntriesWithoutOptions | dist/datatables/contracts.js:57-72 | Without options, every entry has the default description and neither a payload nor a lock. |
| DataTableContracts.ContractIdsAreComponentIds | dist/datatables/contracts.js:23-56 | When moduleId and resource normalise to plain words, every id of the contract passes the manifest's component id pattern as its own key. |
| DataTableContracts.ContractEntriesPassManifest | dist/datatables/contracts.js:57-72 | The entries generated for such a contract pass the manifest's template pack check, whatever the options. |
| DataTableContracts.TrailingDotIdRejected | dist/datatables/contracts.js:1-22 | A segment ending in a dot survives normalisation. The id built from it has two dots in a row, and the manifest validator rejects it. |
| TemplateUtils.KeptNamesEmptyIff | dist/templates/utils.js:1-3 | No class name is kept exactly when every value is falsy. |
| TemplateUtils.MergeEmptyIff | dist/templates/utils.js:1-3 | The merged class is empty exactly when every value is falsy. |
| TemplateUtils.MergeClassNames | dist/templates/utils.js:1-3 | The merged class is empty exactly when every value is falsy. `MergeSplitsBack` recovers the kept names from it. |
| TemplateUtils.MergeSplitsBack | dist/templates/utils.js:1-3 | Splitting the merged class at spaces gives back the kept names, in order, when none of them holds a space. |
| TemplateUtils.KeptNamesAppend | dist/templates/utils.js:2 | Filtering distributes over concatenation, so kept names stay in argument order. |
| TemplateUtils.MergeIdempotent | dist/templates/utils.js:1-3 | Merging a merged class again changes nothing. |
| TemplateUtils.ToStringOrNull | dist/templates/utils.js:7-13 | The result is `null` exactly for a non-string or a blank string. Otherwise it is the string trimmed, which is non-empty. |
| TemplateUtils.ToStringOrNullFixed | dist/templates/utils.js:7-13 | Reading back a read string gives itself. |
| TemplateUtils.ToStringOrNullIgnoresWhitespace | dist/templates/utils.js:7-13 | Surrounding whitespace does not change the read. |
| TemplateUtils.ToStringOrFallback | dist/templates/utils.js:14-16 | The fallback is used exactly when the value reads as `null`. |
| TemplateUtils.FallbackUsedIff | dist/templates/utils.js:14-16 | Two different fallbacks give the same result exactly when the value is a non-blank string. |
| TemplateUtils.ReadString | dist/templates/utils.js:4-6 | Missing data or a missing key gives the fallback. A present key reads its value as `toStringOrFallback` does with the given fallback. |
| TemplateUtils.ReadStringOrEmptyIff | dist/templates/utils.js:4-6 | With the default fallback, the read is empty exactly when the key holds no non-blank string, and otherwise it is that string trimmed. |
| TemplateUtils.ReadStringFrame | dist/templates/utils.js:4-6 | Only the entry under the key matters. |
| TemplateUtils.ToNumberOrFallback | dist/templates/utils.js:17-19 | A finite number is returned as it is, and anything else gives the fallback. |
| TemplateUtils.NumberFallbackUsedIff | dist/templates/utils.js:17-19 | The fallback matters exactly when the value is not a finite number. |
| TemplateUtils.ToNumberFinite | dist/templates/utils.js:17-19 | With a finite fallback the result is always finite, and reading it back gives it again. |
| ThemeMessages.ResolveThemeMessages | dist/i18n/theme.js:9-15 | A missing theme id, or a theme not in the registry, gives the empty tree. |
| ThemeMessages.ResolveWithEnglishDefault | dist/i18n/theme.js:9 | Without a default locale, a theme lacking the locale falls back to its `en` messages. |
| ThemeMessages.LocaleFallbackOrder | dist/i18n/theme.js:15 | The order is the requested locale if present, else the default locale if present, else nothing. |
| ThemeMessages.ResultComesFromTheme | dist/i18n/theme.js:9-15 | A non-empty result is the theme's own table for the requested or the default locale. |
| ThemeMessages.OtherThemesIgnored | dist/i18n/theme.js:12 | Other themes in the registry do not affect the result. |

## Left out

- Inputs are typed. The model takes the types the SDK's declarations promise, for example a manifest alias list of strings and a slot id that is a string or absent. Where the source calls `.trim()` on a value of another type, it throws; the model has no such case, and it does not model `String(...)` coercion of non-string ids.
- Case mapping covers the ASCII letters only. `toLowerCase` and `toUpperCase` on other scripts are outside the model.
- `localeCompare` is replaced by code-unit order. The two agree on the collected methods, which are always upper-case ASCII known methods.
- Inherited prototype properties (`__proto__`, `constructor`) are not modelled as object keys. The maps in the model hold own properties only.
- `data?.[key]` on data that is not an object (a string, a number) is not modelled. `readString` takes an optional record.
- The auth adapter is an input. `getUser` is the outcome the adapter would give; the adapter registry, `configureAuth`, the event emitter and the other adapters of `dist/server.js` are not part of this model.
- The revalidation adapter is a function. `configureRevalidation` is the choice of `Adapter`, and asynchronous scheduling is not modelled.
- The routers do not cache role reads. The source caches the roles read for one request; the model recomputes them, which is equivalent because role readers are pure functions in the model.
- Handlers, hooks and `canAccess` in the generic routers return outcomes that the router passes through unchanged. A JavaScript rejection becomes `Throws`, and the router does not catch it.
- The CRUD hooks (`onInvalidJsonBody`, `onInvalidInput`, `onInvalidId`, `onUnhandledError`) are modelled as synchronous: each yields a response or throws. A hook returning a promise that later rejects is not modelled. The handler returns that promise without awaiting it, so its rejection would escape the `try`.
- `Response` objects are opaque. A response built by the host is known only by identity. The SDK's own JSON responses carry status, body and `Allow` header only.
- `new URL(request.url).searchParams` and `request.json()` are inputs to the model (`searchParams`, `RequestBody`). URL and JSON parsing are not modelled.
- `defineModule` is not modelled: it is the identity function.
- The React context parts of `dist/i18n/theme.js` (the provider, hooks and `createContext`) are not modelled, since they are UI code.
- `dist/build.js`, `dist/testing.js` and the TypeScript sources are not part of this model.
- DataTableContracts.BuildSlots: takes the slot names already normalised. `SlotNamesNormal` proves that normalisation keeps the six fixed slot names, so the contract is unchanged.
- ThemeMessages.ResolveThemeMessages: assumes a locale entry present in a theme table is not `null` or `undefined`. The source's `??` would skip such an entry.
- ThemeMessages.ResolveWithEnglishDefault: states only the `en` fallback case. The requested-locale and missing-theme cases are those of `ResolveThemeMessages` and `LocaleFallbackOrder`.
- Roles.GetRoleSet: models `readRoles` as a total function. In the source, a `readRoles` that throws (`dist/server.js:378`, called through `readUserRoles` at lines 467-472 and 565-570) rejects the router's promise. The model's reader cannot throw, so that error path is not modelled.
- ApiMethods.NormalizeApiMethods: keeps the method set as an insertion-ordered sequence, as a JavaScript `Set` iterates. Only its contents and its `ANY` and `GET` cases are stated; the insertion order itself is not.
