/**
 * The listener of server/server.js: the `Server` class with its app pool,
 * route table and route depth, the per-request dispatch of
 * `processRequest`, and `extractBody`.
 */
module AppServer {
  import opened JsValues
  import opened PathTokenizer
  import opened RouteTable

  /** What an app's resource call settles to: the array it resolves with,
      or a rejection (including a throw inside the call). */
  datatype AppReply = Resolved(result: seq<Value>) | Rejected

  /** An app as the server sees it: its `endpoints` property (meant to be an
      array of strings, but any value) and its resource call
      `app.getResource(app.getResourceByPath(url, app.paths))` as a function
      of the request URL; what happens inside it is not modelled. */
  datatype App = App(endpoints: Value, getResource: string -> AppReply)

  /** A request: its `url`, its `method`, and the chunks its `data` events
      deliver before `end`. */
  datatype Request = Request(url: string, httpMethod: string, chunks: seq<string>)

  /** What a thrown value leaves behind. */
  datatype Outcome = Done | Threw(thrown: Thrown)

  /** The route part of a server's state. */
  datatype RouteState = RouteState(routes: Routes, depth: Option<nat>)

  /** The invariant every reachable server state keeps: every route value is
      app index 0; "__proto__" is never an own key; a key exists only once
      the pool is non-empty; and the depth is undefined until a rebuild
      succeeds, 1 afterwards. */
  ghost predicate ValidState(apps: seq<App>, st: RouteState)
  {
    && AllLeaves(st.routes, 0)
    && ProtoKey !in st.routes
    && (st.routes != map[] ==> |apps| > 0)
    && (st.depth == None || (st.depth == Some(1) && |apps| > 0))
  }

  /** Reference definition of `reconstructRouteTable`: only the first app
      is read; an empty pool fails on `undefined.endpoints`; endpoints that
      are not an array throw 500 with the table untouched; otherwise the
      endpoints are inserted in order, and the depth becomes 1 only when all
      of them were strings. */
  function Rebuild(apps: seq<App>, st: RouteState): (RouteState, Outcome)
  {
    if |apps| == 0 then (st, Threw(TypeError))
    else match apps[0].endpoints
      case Arr(items) =>
        var ins := InsertEndpoints(st.routes, items);
        if ins.ok then (RouteState(ins.routes, Some(1)), Done)
        else (RouteState(ins.routes, st.depth), Threw(Status(500)))
      case _ => (st, Threw(Status(500)))
  }

  /** A rebuild succeeds exactly when the first app's endpoints are an array
      of strings; then each of them but "__proto__" is a key with value 0
      and the depth is 1. A failing rebuild throws 500 (or a TypeError on an
      empty pool). "__proto__" is a key afterwards only if it was before. */
  lemma RebuildSucceedsIff(apps: seq<App>, st: RouteState)
    ensures Rebuild(apps, st).1 == Done <==>
      |apps| > 0 && apps[0].endpoints.Arr? &&
      forall i :: 0 <= i < |apps[0].endpoints.items| ==> apps[0].endpoints.items[i].Str?
    ensures Rebuild(apps, st).1 == Done ==>
      Rebuild(apps, st).0.depth == Some(1) &&
      forall i :: 0 <= i < |apps[0].endpoints.items| && apps[0].endpoints.items[i].s != ProtoKey ==>
        apps[0].endpoints.items[i].s in Rebuild(apps, st).0.routes &&
        Rebuild(apps, st).0.routes[apps[0].endpoints.items[i].s] == Leaf(0)
    ensures Rebuild(apps, st).1 != Done ==>
      Rebuild(apps, st).1 == Threw(if |apps| == 0 then TypeError else Status(500))
    ensures ProtoKey in Rebuild(apps, st).0.routes <==> ProtoKey in st.routes
  {
    if |apps| > 0 && apps[0].endpoints.Arr? {
      var items := apps[0].endpoints.items;
      InsertEndpointsEffect(st.routes, items);
      if InsertEndpoints(st.routes, items).ok {
        forall i | 0 <= i < |items|
          ensures items[i].s in StringPrefix(items)
        {
          StringPrefixIsPrefix(items, i);
        }
      }
    }
  }

  /** With every element a string, the i-th endpoint is in the prefix. */
  lemma {:induction false} StringPrefixIsPrefix(items: seq<Value>, i: int)
    requires |StringPrefix(items)| == |items| && 0 <= i < |items|
    ensures items[i].Str? && StringPrefix(items)[i] == items[i].s
    decreases |items|
  {
    if i > 0 {
      StringPrefixIsPrefix(items[1..], i - 1);
    }
  }

  /** The keys a rebuild assigns: the string endpoints of the first app
      before its first non-string element ("__proto__" among them, though
      assigning it creates no key). */
  function Assigned(apps: seq<App>): seq<string>
  {
    if |apps| > 0 && apps[0].endpoints.Arr? then StringPrefix(apps[0].endpoints.items) else []
  }

  /** A rebuild never removes a key or changes the value of a key it does
      not insert, whether it succeeds or fails part-way. */
  lemma RebuildKeepsKeys(apps: seq<App>, st: RouteState, k: string)
    requires k in st.routes
    ensures k in Rebuild(apps, st).0.routes
    ensures k !in Assigned(apps) || k == ProtoKey ==> Rebuild(apps, st).0.routes[k] == st.routes[k]
  {
    if |apps| > 0 && apps[0].endpoints.Arr? {
      InsertEndpointsEffect(st.routes, apps[0].endpoints.items);
    }
  }

  /** A rebuild that fails part-way keeps the entries inserted before the
      bad element and leaves the depth as it was. */
  lemma RebuildFailureKeepsPrefix(apps: seq<App>, st: RouteState)
    requires |apps| > 0 && apps[0].endpoints.Arr?
    requires Rebuild(apps, st).1 != Done
    ensures var items := apps[0].endpoints.items;
      && Rebuild(apps, st).0.routes == st.routes + LeafMap(StringPrefix(items))
      && Rebuild(apps, st).0.depth == st.depth
      && |StringPrefix(items)| < |items|
  {
    InsertEndpointsEffect(st.routes, apps[0].endpoints.items);
  }

  /** Only the first app of the pool matters: appending an app to a
      non-empty pool does not change what a rebuild does. */
  lemma RebuildReadsFirstAppOnly(apps: seq<App>, app: App, st: RouteState)
    requires |apps| > 0
    ensures Rebuild(apps + [app], st) == Rebuild(apps, st)
  {
    assert (apps + [app])[0] == apps[0];
  }

  /** A rebuild of a non-empty pool keeps the state invariant. */
  lemma RebuildKeepsValid(apps: seq<App>, st: RouteState)
    requires ValidState(apps, st) && |apps| > 0
    ensures ValidState(apps, Rebuild(apps, st).0)
  {
    if apps[0].endpoints.Arr? {
      InsertEndpointsEffect(st.routes, apps[0].endpoints.items);
    }
  }

  /** `Server`: the app pool, the route table and its depth. */
  class Server {
    var apps: seq<App>
    var routes: Routes
    var routesDepth: Option<nat>

    ghost predicate Valid()
      reads this
    {
      ValidState(apps, RouteState(routes, routesDepth))
    }

    /** `new Server(settings)` without an app: an empty pool and an empty
        table whose depth is still undefined. */
    constructor ()
      ensures Valid()
      ensures apps == [] && routes == map[] && routesDepth == None
    {
      apps := [];
      routes := map[];
      routesDepth := None;
    }

    /** `new Server(settings, app)`: with an app, the constructor adds it,
        and a throw from that rebuild propagates out of the constructor (the
        caller then never receives the server; it is returned here so that
        the state left behind can be stated). */
    static method Create(app: Option<App>) returns (s: Server, r: Outcome)
      ensures fresh(s) && s.Valid()
      ensures s.apps == (if app.Some? then [app.value] else [])
      ensures app.None? ==> r == Done && s.routes == map[] && s.routesDepth == None
      ensures app.Some? ==> (RouteState(s.routes, s.routesDepth), r) == Rebuild([app.value], RouteState(map[], None))
    {
      s := new Server();
      r := Done;
      if app.Some? {
        r := s.AddApp(app.value);
      }
    }

    /** `addApp`: push the app to the end of the pool, then rebuild. */
    method AddApp(app: App) returns (r: Outcome)
      requires Valid()
      modifies this
      ensures Valid()
      ensures apps == old(apps) + [app]
      ensures (RouteState(routes, routesDepth), r) == Rebuild(apps, old(RouteState(routes, routesDepth)))
    {
      apps := apps + [app];
      r := ReconstructRouteTable();
    }

    /** `removeApp`, `startApp` and `stopApp` are empty placeholders in the
        server.js: they change nothing. */
    method RemoveApp(app: App)
      ensures unchanged(this)
    {
    }

    method StartApp(app: App)
      ensures unchanged(this)
    {
    }

    method StopApp(app: App)
      ensures unchanged(this)
    {
    }

    /** `reconstructRouteTable`, with its `forEach` over the first app's
        endpoints written as a loop. */
    method ReconstructRouteTable() returns (r: Outcome)
      requires Valid()
      modifies this
      ensures Valid()
      ensures apps == old(apps)
      ensures (RouteState(routes, routesDepth), r) == Rebuild(apps, old(RouteState(routes, routesDepth)))
    {
      if |apps| == 0 {
        // `this.apps[0].endpoints` reads a property of `undefined`.
        return Threw(TypeError);
      }
      RebuildKeepsValid(apps, RouteState(routes, routesDepth));
      if !apps[0].endpoints.Arr? {
        return Threw(Status(500));
      }
      var items := apps[0].endpoints.items;
      var i := 0;
      while i < |items|
        invariant 0 <= i <= |items|
        invariant InsertEndpoints(routes, items[i..]) == InsertEndpoints(old(routes), items)
        invariant apps == old(apps) && routesDepth == old(routesDepth)
      {
        assert items[i..][0] == items[i] && items[i..][1..] == items[i + 1..];
        if !items[i].Str? {
          return Threw(Status(500));
        }
        if items[i].s != ProtoKey {
          // Assigning a number to "__proto__" calls the inherited setter,
          // which ignores it.
          routes := routes[items[i].s := Leaf(0)];
        }
        i := i + 1;
      }
      routesDepth := Some(1);
      return Done;
    }
  }

  /** The response sink: the data of every `response.end` call, in order. */
  class Response {
    var ended: seq<Value>

    constructor ()
      ensures ended == []
    {
      ended := [];
    }

    method End(data: Value)
      modifies this
      ensures ended == old(ended) + [data]
    {
      ended := ended + [data];
    }
  }

  /** The chunks joined in order, as `postData += data` builds them. */
  function Concat(chunks: seq<string>): string
    decreases |chunks|
  {
    if |chunks| == 0 then "" else chunks[0] + Concat(chunks[1..])
  }

  /** The sum of the chunk lengths. */
  function TotalLength(chunks: seq<string>): nat
    decreases |chunks|
  {
    if |chunks| == 0 then 0 else |chunks[0]| + TotalLength(chunks[1..])
  }

  /** Concatenation distributes over splitting the chunk sequence. */
  lemma {:induction false} ConcatSplit(a: seq<string>, b: seq<string>)
    ensures Concat(a + b) == Concat(a) + Concat(b)
    decreases |a|
  {
    if |a| == 0 {
      assert a + b == b;
    } else {
      ConcatSplit(a[1..], b);
      assert (a + b)[1..] == a[1..] + b;
    }
  }

  /** Chunk `i` sits in the body right between the chunks before it and
      the chunks after it: nothing is lost, reordered or added. */
  lemma {:induction false} ConcatKeepsChunks(chunks: seq<string>, i: int)
    requires 0 <= i < |chunks|
    ensures Concat(chunks) == Concat(chunks[..i]) + chunks[i] + Concat(chunks[i + 1..])
  {
    assert chunks == chunks[..i] + ([chunks[i]] + chunks[i + 1..]);
    ConcatSplit(chunks[..i], [chunks[i]] + chunks[i + 1..]);
    assert ([chunks[i]] + chunks[i + 1..])[1..] == chunks[i + 1..];
  }

  /** The body is as long as all chunks together. */
  lemma {:induction false} ConcatLength(chunks: seq<string>)
    ensures |Concat(chunks)| == TotalLength(chunks)
    decreases |chunks|
  {
    if |chunks| > 0 {
      ConcatLength(chunks[1..]);
    }
  }

  /** `extractBody`: accumulate the data chunks until `end`. */
  method ExtractBody(chunks: seq<string>) returns (postData: string)
    ensures postData == Concat(chunks)
  {
    postData := "";
    var i := 0;
    while i < |chunks|
      invariant 0 <= i <= |chunks|
      invariant postData == Concat(chunks[..i])
    {
      ConcatSplit(chunks[..i], [chunks[i]]);
      assert chunks[..i + 1] == chunks[..i] + [chunks[i]];
      postData := postData + chunks[i];
      i := i + 1;
    }
    assert chunks[..i] == chunks;
  }

  /** What one request leaves behind: the data of its single `response.end`
      call, and the body extracted on the way (`None` when none was). */
  datatype Handled = Handled(payload: Value, body: Option<string>)

  /** Reference definition of `processRequest`'s outcome. Any throw (the
      tokeniser's 400, the walk's 500, `undefined.getResource` when no app
      was found, a rejected resource call) yields the payload "500". The
      body is extracted after the walk and before the app call, only for
      the method "post". */
  function Handle(apps: seq<App>, st: RouteState, request: Request): Handled
  {
    match Tokenized(request.url)
    case Err(_) => Handled(Str("500"), None)
    case Ok(path) =>
      var w := WalkFrom(st.routes, DepthBound(st.depth), path);
      if w.Failed? then Handled(Str("500"), None)
      else
        var body := if request.httpMethod == "post" then Some(Concat(request.chunks)) else None;
        if w.Found? && 0 <= w.index < |apps| then
          match apps[w.index].getResource(request.url)
          case Rejected => Handled(Str("500"), body)
          case Resolved(result) => Handled(if |result| > 0 then result[0] else Undefined, body)
        else Handled(Str("500"), body)
  }

  /** `processRequest`: the `try` block, its `catch` that turns whatever was
      thrown into "500", and the `finally` that ends the response. */
  method ProcessRequest(request: Request, response: Response, server: Server) returns (body: Option<string>)
    modifies response
    ensures response.ended == old(response.ended) + [Handle(server.apps, RouteState(server.routes, server.routesDepth), request).payload]
    ensures body == Handle(server.apps, RouteState(server.routes, server.routesDepth), request).body
  {
    var responseData: Value := Undefined;
    var caught: Option<Thrown> := None;
    body := None;
    // try
    var requestPath := PathToArray(request.url);
    if requestPath.Err? {
      caught := Some(requestPath.thrown);
    } else {
      var w := WalkRoutes(server.routes, server.routesDepth, requestPath.value);
      if w.Failed? {
        caught := Some(w.thrown);
      } else {
        responseData := Str("");
        if request.httpMethod == "post" {
          var postData := ExtractBody(request.chunks);
          body := Some(postData);
        }
        if w.Found? && 0 <= w.index < |server.apps| {
          match server.apps[w.index].getResource(request.url) {
            case Rejected =>
              caught := Some(Rejection);
            case Resolved(result) =>
              responseData := if |result| > 0 then result[0] else Undefined;
          }
        } else {
          // `app` is still undefined: `app.getResource` throws.
          caught := Some(TypeError);
        }
      }
    }
    // catch
    if caught.Some? {
      responseData := Str("500");
    }
    // finally
    response.End(responseData);
  }

  /** A path the tokeniser refuses (its `throw 400`) still yields "500",
      and no body is read. */
  lemma BadPathYields500(apps: seq<App>, st: RouteState, request: Request)
    requires |request.url| == 0 || request.url[0] != '/'
    ensures Handle(apps, st, request) == Handled(Str("500"), None)
  {
  }

  /** The body is read only for the method "post" (lower case; "POST" does
      not match), and then it is the chunks joined in order; it is read
      whenever the walk did not throw. */
  lemma BodyOnlyForPost(apps: seq<App>, st: RouteState, request: Request)
    ensures Handle(apps, st, request).body.Some? ==>
      request.httpMethod == "post" && Handle(apps, st, request).body.value == Concat(request.chunks)
    ensures (request.httpMethod == "post" && Tokenized(request.url).Ok? &&
             !WalkFrom(st.routes, DepthBound(st.depth), Tokenized(request.url).value).Failed?) ==>
      Handle(apps, st, request).body == Some(Concat(request.chunks))
    ensures Handle(apps, st, Request(request.url, "POST", request.chunks)).body == None
  {
  }

  /** On a reachable state, the walk can only find app index 0, which is
      inside the pool. */
  lemma {:induction false} FoundAppInPool(apps: seq<App>, st: RouteState, path: seq<string>)
    requires ValidState(apps, st)
    requires WalkFrom(st.routes, DepthBound(st.depth), path).Found?
    ensures WalkFrom(st.routes, DepthBound(st.depth), path).index == 0 < |apps|
  {
    FlatWalk(st.routes, 0, DepthBound(st.depth), path);
  }

  /** "/" tokenises to no segments and then fails: at the length check once
      the table has a depth, at `undefined.getResource` before that. */
  lemma RootYields500(apps: seq<App>, st: RouteState, httpMethod: string, chunks: seq<string>)
    requires ValidState(apps, st)
    ensures Handle(apps, st, Request("/", httpMethod, chunks)).payload == Str("500")
  {
    RootIsEmpty();
  }

  /** Endpoints are keys verbatim, lookups use slash-free segments: when
      every key contains a slash (endpoints written "/master"), every
      request yields "500". */
  lemma {:induction false} SlashedKeysNeverMatch(apps: seq<App>, st: RouteState, request: Request)
    requires ValidState(apps, st)
    requires forall k :: k in st.routes ==> '/' in k
    ensures Handle(apps, st, request).payload == Str("500")
  {
    if Tokenized(request.url).Ok? {
      var path := Tokenized(request.url).value;
      TokenizedSegmentsSlashFree(request.url);
      if st.depth.Some? {
        FlatWalk(st.routes, 0, DepthBound(st.depth), path);
      }
    }
  }

  /** A request whose first segment is a key of a built table is served by
      the first app, with the URL as given and whatever segments follow
      ignored by the routing; unless "hasOwnProperty" is a key, which
      breaks the walk. */
  lemma {:induction false} FirstSegmentRoutesToFirstApp(apps: seq<App>, st: RouteState, request: Request)
    requires ValidState(apps, st) && st.depth == Some(1)
    requires Tokenized(request.url).Ok?
    requires |Tokenized(request.url).value| > 0 && Tokenized(request.url).value[0] in st.routes
    ensures Handle(apps, st, request).payload ==
      if OwnCheckKey in st.routes then Str("500")
      else match apps[0].getResource(request.url)
      case Rejected => Str("500")
      case Resolved(result) => if |result| > 0 then result[0] else Undefined
  {
    FlatWalk(st.routes, 0, 1, Tokenized(request.url).value);
  }

  /** Before any rebuild has succeeded the depth is undefined, so the walk
      never starts and `app` stays undefined: every request yields "500",
      and for "post" the body is read first. */
  lemma NoDepthYields500(apps: seq<App>, st: RouteState, request: Request)
    requires ValidState(apps, st) && st.depth == None
    ensures Handle(apps, st, request).payload == Str("500")
    ensures Handle(apps, st, request).body ==
      if Tokenized(request.url).Ok? && request.httpMethod == "post"
      then Some(Concat(request.chunks)) else None
  {
  }

  /** A request whose first segment is not a key (or that has none) yields
      "500" without reading the body. */
  lemma {:induction false} UnknownSegmentYields500(apps: seq<App>, st: RouteState, request: Request)
    requires ValidState(apps, st) && st.depth == Some(1)
    requires Tokenized(request.url).Ok?
    requires |Tokenized(request.url).value| == 0 || Tokenized(request.url).value[0] !in st.routes
    ensures Handle(apps, st, request) == Handled(Str("500"), None)
  {
    FlatWalk(st.routes, 0, 1, Tokenized(request.url).value);
  }

  /** An endpoint "hasOwnProperty" hides the method every step of the walk
      calls: once it is a key, every request yields "500", and on a built
      table no body is read. */
  lemma {:induction false} OwnCheckEndpointYields500(apps: seq<App>, st: RouteState, request: Request)
    requires ValidState(apps, st) && OwnCheckKey in st.routes
    ensures Handle(apps, st, request).payload == Str("500")
    ensures st.depth.Some? ==> Handle(apps, st, request).body == None
  {
    if Tokenized(request.url).Ok? && st.depth.Some? {
      FlatWalk(st.routes, 0, DepthBound(st.depth), Tokenized(request.url).value);
    }
  }

  /** An endpoint "__proto__" is never routed: a request for it yields
      "500" even right after a rebuild that listed it. */
  lemma {:induction false} ProtoEndpointNeverRoutes(apps: seq<App>, st: RouteState, request: Request)
    requires ValidState(apps, st)
    requires Tokenized(request.url).Ok?
    requires |Tokenized(request.url).value| > 0 && Tokenized(request.url).value[0] == ProtoKey
    ensures Handle(apps, st, request).payload == Str("500")
    ensures ProtoKey !in Rebuild(apps, st).0.routes
  {
    if st.depth.Some? {
      FlatWalk(st.routes, 0, DepthBound(st.depth), Tokenized(request.url).value);
    }
    RebuildSucceedsIff(apps, st);
  }
}
