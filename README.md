# Cards.JS request routing and system events, modelled in Dafny

This project models three parts of Cards.JS.

- **The HTTP listener** (server/server.js). A `Server` keeps an app pool, a
  route table and a route depth. `addApp` pushes an app and calls
  `reconstructRouteTable`, which maps every endpoint string of the first app
  to app index 0. For each request, `processRequest`:
  - tokenises the URL with `pathToArray`;
  - walks the route table with the path segments;
  - reads the body with `extractBody` when the method is "post";
  - calls the app found;
  - ends the response with the result, or with "500" when anything threw.
- **The System instance** (system/system.js):
  - `addBehaviors` classifies each behaviour element, attaches listeners, and
    then fires one post-attachment event per element;
  - `on` wraps one listener in an object and hands it to `addBehaviors`;
  - `fire` runs the log, error and behave steps of a described event, and
    falls back to "event_fail";
  - `log` logs a string or fires "type_error";
  - the filter step of `system.file.list` keeps the items whose filter
    result is truthy, in order.
- **The older listener** (old/server.js). A `switch` on the URL with four
  cases and a default. The case '/master/pool_sync' has no `break`, so it
  falls through into `usage.main`. The model keeps this as written.

The files are:

- `js_values.dfy` (module `JsValues`): the JavaScript values the code
  inspects, `typeof`, and thrown values.
- `path_tokenizer.dfy` (module `PathTokenizer`): `String.prototype.split`
  on "/", and `pathToArray`.
- `route_table.dfy` (module `RouteTable`): the route tree, the walk, and
  the endpoint insertion.
- `app_server.dfy` (module `AppServer`): the `Server` class, `extractBody`
  and `processRequest`.
- `system_events.dfy` (module `SystemEvents`): the `System` class and the
  list filter.
- `legacy_router.dfy` (module `LegacyRouter`): the `switch` of the older
  listener.

Each method that loops or changes state is proved against a reference
function. Examples are `Tokenized`, `WalkFrom`, `InsertEndpoints`, `Rebuild`,
`Handle`, `TryFire`, `FireSpec`, `AddBehaviorsSpec` and `Kept`. Lemmas then
state the properties of those functions.

Three behaviours of the code that a reader might not expect are kept as written:

- "/" tokenises to no segments; it is not refused.
- Endpoints become route keys verbatim. An endpoint written "/master" can
  therefore never match a segment.
- The route table is a plain JavaScript object. Assigning 0 to the key
  "__proto__" calls the inherited setter, which ignores the number, so no
  key is created and a request for "/__proto__" yields "500". An endpoint
  "hasOwnProperty" becomes an own key that hides the method the walk calls
  at every step, so every request then yields "500".

## Model

| member | source | states |
|---|---|---|
| PathTokenizer.Split | server/server.js:155 | `url.split("/")` yields at least one piece, and no piece contains a slash |
| PathTokenizer.JoinSplit | server/server.js:155 | joining the pieces of a split with "/" gives back the string |
| PathTokenizer.SplitJoin | server/server.js:155 | splitting the join of slash-free pieces gives back the pieces |
| PathTokenizer.PathToArray | server/server.js:153-174 | fails exactly when the URL is empty or does not start with "/", and then with status 400; otherwise yields the reference tokenisation |
| PathTokenizer.ShapeCheckIsLeadingSlash | server/server.js:160-163 | the test "fewer than two pieces or first piece not empty" holds exactly when the URL does not start with a slash |
| PathTokenizer.TokenizedSegmentsSlashFree | server/server.js:153-174 | no token contains a slash |
| PathTokenizer.TokenizedIsSplitSlice | server/server.js:165-171 | the tokens are the split pieces minus the first and at most one trailing one, in order, with interior empty pieces kept |
| PathTokenizer.TokenizedRoundTrip | server/server.js:153-174 | the URL is "/" plus the tokens joined by "/", possibly followed by the one trailing slash that was dropped |
| PathTokenizer.TokenizeJoin | server/server.js:153-174 | slash-free tokens whose last one is not empty are recovered from "/" plus their join |
| PathTokenizer.TrailingSlashInsensitive | server/server.js:165-168 | adding one trailing slash to a URL that starts with a slash and does not end in one leaves the tokens unchanged |
| PathTokenizer.RootIsEmpty | server/server.js:153-174 | "/" tokenises to the empty sequence and is not refused |
| PathTokenizer.TrailingSlashExample | server/server.js:165-171 | "/a/b" and "/a/b/" both tokenise to ["a", "b"] |
| PathTokenizer.EmptySegmentExample | server/server.js:153-174 | "/a//b" tokenises to ["a", "", "b"] |
| PathTokenizer.NoLeadingSlashExample | server/server.js:161-163 | "master" is refused with 400 |
| RouteTable.WalkRoutes | server/server.js:193-217 | the loop ends where the reference walk does: at a leaf with its app index, by using up the depth, by throwing 500 for a too-short path or an unknown segment, or by a TypeError when a node has an own "hasOwnProperty" key |
| RouteTable.WalkIgnoresRemainder | server/server.js:208-213 | once a leaf is met the rest of the path does not matter: extending the path does not change the result |
| RouteTable.ShortPathNeverExhaustsDepth | server/server.js:202-205 | a path shorter than the depth either meets a leaf or throws; it never uses the depth up |
| RouteTable.FoundIsLeafOnPath | server/server.js:193-217 | a found index is the leaf at the end of some prefix of the path, at most `depth` segments long |
| RouteTable.FlatWalk | server/server.js:193-217 | on a table of leaves only, with depth at least one, the walk finds the leaf's index exactly when the first segment is a key and "hasOwnProperty" is not; it throws 500 for an empty path or an unknown segment, and a TypeError when "hasOwnProperty" is a key |
| RouteTable.OwnCheckKeyBreaksWalk | server/server.js:208 | a node with an own "hasOwnProperty" key makes every walk that reaches it with a segment left throw a TypeError |
| RouteTable.InsertEndpointsEffect | server/server.js:135-141 | the `forEach` keeps every old key and adds, with value 0, the string endpoints before the first non-string one, except "__proto__", which creates no key; it completes exactly when every element is a string |
| RouteTable.Assign | server/server.js:140 | `routes[key] = 0` creates or overwrites the own key with 0 and leaves every other key as it was; for "__proto__" nothing changes |
| RouteTable.AssignThenLeaves | server/server.js:140 | assigning one endpoint and then the rest gives the old table plus the own keys of all of them |
| RouteTable.KeysOnlyGrow | server/server.js:135-141 | a key exists afterwards exactly when it existed before or is an endpoint string other than "__proto__"; each such endpoint maps to 0; every other key keeps its value |
| AppServer.RebuildSucceedsIff | server/server.js:122-145 | a rebuild succeeds exactly when the first app's endpoints are an array of strings; then every endpoint other than "__proto__" maps to 0 and the depth is 1; otherwise it throws 500, or a TypeError on an empty pool; "__proto__" is a key afterwards only if it was before |
| AppServer.RebuildKeepsKeys | server/server.js:135-141 | a rebuild never removes a key, whether it succeeds or fails, and a key it does not assign (or "__proto__") keeps its value |
| AppServer.RebuildFailureKeepsPrefix | server/server.js:135-141 | a rebuild that fails part-way keeps the entries inserted before the bad element and leaves the depth as it was |
| AppServer.RebuildReadsFirstAppOnly | server/server.js:130-141 | only `apps[0]` is read: appending an app to a non-empty pool does not change what a rebuild does |
| AppServer.RebuildKeepsValid | server/server.js:122-145 | a rebuild of a non-empty pool keeps the invariant: all values 0, no "__proto__" key, keys only with a non-empty pool, depth undefined or 1 |
| AppServer.Server.constructor | server/server.js:31-36 | a new server has an empty pool, an empty table and an undefined depth |
| AppServer.Server.Create | server/server.js:31-41 | with an app, the constructor adds it, and the state and outcome are those of one rebuild of a one-app pool |
| AppServer.Server.AddApp | server/server.js:83-89 | the app is appended at the end of the pool, the table and depth become those of a rebuild of the new pool, and the invariant is kept |
| AppServer.Server.RemoveApp | server/server.js:96-98 | changes nothing |
| AppServer.Server.StartApp | server/server.js:105-107 | changes nothing |
| AppServer.Server.StopApp | server/server.js:114-116 | changes nothing |
| AppServer.Server.ReconstructRouteTable | server/server.js:122-145 | the pool is unchanged; the table, depth and outcome are those of the reference rebuild; the invariant is kept |
| AppServer.Response.End | server/server.js:264 | the data passed is appended to what the response was ended with |
| AppServer.ConcatKeepsChunks | server/server.js:278-280 | each chunk sits in the body between the chunks before it and the chunks after it |
| AppServer.ConcatLength | server/server.js:278-280 | the body is exactly as long as all chunks together |
| AppServer.ExtractBody | server/server.js:269-297 | the body is the data chunks joined in arrival order |
| AppServer.ProcessRequest | server/server.js:184-266 | the response is ended exactly once, with the reference payload; the body is extracted as the reference says |
| AppServer.BadPathYields500 | server/server.js:161-163 | a refused URL ends the response with "500" and reads no body |
| AppServer.BodyOnlyForPost | server/server.js:238-240 | a body is read only for the method "post" ("POST" does not match); it is then the chunks joined in order, and it is read whenever the walk did not throw |
| AppServer.FoundAppInPool | server/server.js:208-211 | on a reachable state, a found app index is 0 and lies inside the pool |
| AppServer.RootYields500 | server/server.js:184-266 | on a reachable state, "/" always ends the response with "500" |
| AppServer.SlashedKeysNeverMatch | server/server.js:140 | when every key contains a slash, every request yields "500" |
| AppServer.FirstSegmentRoutesToFirstApp | server/server.js:193-252 | on a built table, a request whose first segment is a key gets the first app's answer for the URL as given: the first element of the result, or "500" on rejection; "500" whenever "hasOwnProperty" is a key |
| AppServer.OwnCheckEndpointYields500 | server/server.js:208 | on a reachable state with a "hasOwnProperty" key, every request yields "500", and on a built table no body is read |
| AppServer.ProtoEndpointNeverRoutes | server/server.js:140-216 | on a reachable state, a request whose first segment is "__proto__" yields "500", and no rebuild creates that key |
| AppServer.NoDepthYields500 | server/server.js:195-252 | before any rebuild has succeeded (depth undefined) every request yields "500"; the body is still read for a well-formed "post" request |
| AppServer.UnknownSegmentYields500 | server/server.js:214-216 | on a built table, a request with no first segment, or an unknown one, yields "500" and reads no body |
| SystemEvents.FireUndescribed | system/system.js:249-252 | an undescribed event performs none of its own steps; only the "event_fail" fallback runs, and it throws only if that fallback fails (or the name was "event_fail") |
| SystemEvents.FireDefaultsMessage | system/system.js:258-260 | an absent message means the same as the event name |
| SystemEvents.FireStepsFollowFlags | system/system.js:263-275 | when no step throws, a described event performs exactly the log, error and behave steps whose flags are set, in that order, and does not throw |
| SystemEvents.FireStopsAtThrowingStep | system/system.js:268-283 | when the error step throws, the behave step does not run and "event_fail" is fired after the steps already performed |
| SystemEvents.FireThrowsOnlyThroughEventFail | system/system.js:277-284 | `fire` throws only when the "event_fail" try block itself fails |
| SystemEvents.Classify | system/system.js:184-200 | `null` is exactly the element that throws; an attached element is a one-property object with a non-empty key and a function value; an undescribed one is an array or a one-property object |
| SystemEvents.PostEvent | system/system.js:204-211 | the event is "behavior_attach" with the key exactly for an attached element, and otherwise "behavior_attach_fail" with "Event not described." or "Request garbage" |
| SystemEvents.AttachedIff | system/system.js:184-194 | a listener is attached exactly for an object with one own property, a non-empty key and a function value |
| SystemEvents.FailureMessages | system/system.js:195-210 | any other non-null element fires "behavior_attach_fail"; the message is "Event not described." exactly for a lone property (or an empty array, whose only own property is "length"), and "Request garbage" otherwise |
| SystemEvents.RegisterAppends | system/system.js:191 | for each key, the listeners attached under it are appended behind the existing ones, in element order |
| SystemEvents.ChainSplit | system/system.js:204-212 | running outcomes in two parts is running the first part and, if it did not throw, the second |
| SystemEvents.FireAllSplit | system/system.js:204-212 | firing a list of events in two parts is firing the first part and, if it did not throw, the second |
| SystemEvents.ChainStopsAtThrow | system/system.js:204-212 | after a `fire` that throws, no later event of the loop runs |
| SystemEvents.NotAnArrayFiresRequestFail | system/system.js:177-178 | a non-array or an empty array registers nothing and fires exactly "behavior_attach_request_fail" |
| SystemEvents.OnNeverRegisters | system/system.js:346-350 | `on` hands over a plain object, which is not an array, so it never registers the callback |
| SystemEvents.AddBehaviorsEffect | system/system.js:176-215 | without null elements, each key's listeners grow by exactly the functions attached under it, and one event per element is fired, in element order, after all attachments |
| SystemEvents.NullElementThrows | system/system.js:184-185 | a null element (`getOwnPropertyNames(null)`) throws: only the elements before it are attached, and nothing is fired |
| SystemEvents.System.constructor | system/system.js:153 | a new instance has no listeners and has performed nothing |
| SystemEvents.System.LogText | system/system.js:229-231 | a string is logged as the instance id, ": " and the text |
| SystemEvents.System.Log | system/system.js:229-236 | a string is logged; any other value fires "type_error" with its `typeof` and " not string." |
| SystemEvents.System.TryBlock | system/system.js:247-276 | the try block performs the reference steps up to the first one that throws, and reports whether it completed |
| SystemEvents.System.Fire | system/system.js:245-285 | the steps performed and whether `fire` throws are those of the reference definition |
| SystemEvents.System.AddBehaviors | system/system.js:176-221 | the registry, the steps performed and whether it throws are those of the reference definition |
| SystemEvents.System.Attach | system/system.js:182-201 | the outcomes are the classification of every element; the listeners of the elements before the first null are registered; a null element is reported |
| SystemEvents.System.FirePostAttachment | system/system.js:203-212 | one event per outcome is fired, in order, up to the first `fire` that throws |
| SystemEvents.System.On | system/system.js:346-350 | registers nothing and does exactly what firing "behavior_attach_request_fail" does |
| SystemEvents.KeptSplit | system/system.js:132-139 | filtering distributes over concatenation, so the item order is kept |
| SystemEvents.KeptMembers | system/system.js:134-138 | an item is kept exactly when it is listed and its filter result is truthy |
| SystemEvents.ListFiltered | system/system.js:115-145 | a null filter returns the items unchanged; a callable filter keeps the items with a truthy result, in order; a non-callable filter throws a TypeError on the first item, and returns [] when there are none |
| LegacyRouter.Route | old/server.js:7-27 | the handler runs one or two actions, and two only as `master.pool_sync` followed by `usage.main` |
| LegacyRouter.FirstMatch | old/server.js:9 | the chosen case is the first whose key equals the URL exactly, or none |
| LegacyRouter.SwitchDefaultIff | old/server.js:9-26 | with a default last, a switch runs the default alone exactly when no case key equals the URL |
| LegacyRouter.SwitchWithBreaks | old/server.js:9-26 | when every case breaks, a matched case runs exactly its own statements |
| LegacyRouter.RunFromStartsWithCase | old/server.js:9-26 | a matched case's statements always run first |
| LegacyRouter.RouteMaster | old/server.js:11-13 | "/master" calls `master.main` only |
| LegacyRouter.RoutePoolSyncFallsThrough | old/server.js:14-18 | "/master/pool_sync" calls `master.pool_sync` and then, with no `break`, `usage.main` |
| LegacyRouter.RouteUse | old/server.js:16-18 | "/use" calls `usage.main` only |
| LegacyRouter.RouteCardId | old/server.js:19-21 | "/use/card_id" calls `usage.card_id` only |
| LegacyRouter.RouteDefaultIff | old/server.js:23-25 | the 200 "Wrong url" text reply runs exactly for URLs other than the four case keys; "/master/" and "/use?x=1" get it too |
| LegacyRouter.RouteTwoHandlersIff | old/server.js:14-18 | "/master/pool_sync" is the only URL that runs two handlers |

## Left out

- Sockets, `http.createServer`, `listen`, `startServer`, the 'clientError'
  handler and the settings object are not modelled. Neither are
  `response.writeHead`, the HTTP handlers of master.js and use.js, or
  console output. A response is the sequence of values passed to `end`.
- Asynchrony is not modelled: `await`, promise scheduling, `setImmediate`,
  the 'data'/'end' event order and `Promise.all`. A request's body is the
  sequence of its data chunks, and a filter result is its truthiness.
- What happens inside an app's `getResource` and `getResourceByPath` is not
  modelled. Each app's resource call is a function of the URL that resolves
  to an array or rejects.
- A `getResource` result that resolves to something other than an array is
  not modelled. The model assumes the resolution value is an array.
- Floating-point numbers and non-integer route values are not modelled. The
  server only ever stores the number 0.
- `processError`, `error` and `behave` of `System` are not modelled, and
  neither is the emitter's 'newListener' event. Only whether each error or
  behave step throws is kept, as a parameter of the environment.
- The `System` constructor's loading is not modelled. This covers the event
  descriptions read by the loader, the `system.file` helpers other than the
  filter step of `list`, and the deferred "system_load" fire.
- SystemEvents.System.Fire: messages that are not strings are not modelled.
  A message is a string, and the empty string stands for an absent or falsy
  one.
- SystemEvents.ListFiltered: directory listing, `toAbsolute` and rejected
  filter promises are not modelled. The list of items is an input.
- `removeApp`, `startApp` and `stopApp` are empty in server.js and are
  modelled as methods that change nothing.
- `addApp` with `undefined` or `null` is not modelled: only the
  constructor tests `if(app)`, and a falsy app that `addApp` pushes onto an
  empty pool makes `this.apps[0].endpoints` throw a TypeError. The `App` record always has
  an `endpoints` value, so it cannot represent such an app.
- Apps are modelled as values. server.js pushes a reference to the app
  object, and a rebuild reads `this.apps[0].endpoints` when it runs, so a
  change the caller makes to an app after adding it is seen by the next
  rebuild. The `App` record cannot change after `AddApp`, so neither
  `AddApp` nor `RebuildReadsFirstAppOnly` captures that aliasing.
- Request data chunks are modelled as strings. In server.js `postData +=
  data` decodes each Buffer chunk on its own, so a multi-byte character
  split across two chunks comes out garbled; `Concat` joins chunks that
  are already decoded and cannot represent that.
