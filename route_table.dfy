/**
 * The route table of server/server.js: the object `routes` that
 * `reconstructRouteTable` fills from the endpoints of the first app, and the
 * `for` loop of `processRequest` that walks it with the tokenised path.
 */
module RouteTable {
  import opened JsValues

  /** A value found in the route tree. A number ends the walk and names an
      app by its index in the pool; any other value is an intermediate node
      the walk descends into. The server itself only ever stores numbers. */
  datatype RouteNode = Leaf(index: int) | Inner(children: map<string, RouteNode>)

  /** The own properties of a route-tree object. */
  type Routes = map<string, RouteNode>

  /** How the walk ends: at a leaf; having used up the depth without
      meeting one (the app then stays `undefined`); or by a throw: `throw 500`
      for a path too short or no such segment, a TypeError when a node's own
      "hasOwnProperty" key hides the method the walk calls. */
  datatype Walk = Found(index: int) | NoLeaf | Failed(thrown: Thrown)

  /** The key whose assignment on a plain object calls the inherited
      `__proto__` setter; given a number, that setter does nothing. */
  const ProtoKey: string := "__proto__"

  /** The key that hides `Object.prototype.hasOwnProperty` once it is an
      own property of a node. */
  const OwnCheckKey: string := "hasOwnProperty"

  /** The number of loop steps `routesDepth` allows: `i < undefined` is
      false, so a table that was never built successfully allows none. */
  function DepthBound(depth: Option<nat>): nat
  {
    if depth.Some? then depth.value else 0
  }

  /** Reference definition of the walk: `steps` steps remain, `path` is the
      part of the request path not yet consumed. */
  function WalkFrom(node: Routes, steps: int, path: seq<string>): Walk
    decreases steps
  {
    if steps <= 0 then NoLeaf
    else if |path| == 0 then Failed(Status(500))
    else if OwnCheckKey in node then Failed(TypeError)
    else if path[0] !in node then Failed(Status(500))
    else match node[path[0]]
      case Leaf(n) => Found(n)
      case Inner(children) => WalkFrom(children, steps - 1, path[1..])
  }

  /** The loop of `processRequest` (server/server.js:193-217). */
  method WalkRoutes(routes: Routes, routesDepth: Option<nat>, requestPath: seq<string>) returns (w: Walk)
    ensures w == WalkFrom(routes, DepthBound(routesDepth), requestPath)
  {
    var i := 0;
    var depth := DepthBound(routesDepth);
    var requestPathLength := |requestPath|;
    var serverPath := routes;
    while i < depth
      invariant 0 <= i <= requestPathLength
      invariant WalkFrom(serverPath, depth - i, requestPath[i..]) == WalkFrom(routes, depth, requestPath)
    {
      // The path was too short for the depth of the table.
      if requestPathLength == i {
        return Failed(Status(500));
      }
      var segment := requestPath[i];
      assert requestPath[i..][0] == segment && requestPath[i..][1..] == requestPath[i + 1..];
      if OwnCheckKey in serverPath {
        // `serverPath.hasOwnProperty` is a route value, not a function.
        return Failed(TypeError);
      }
      if segment in serverPath {
        match serverPath[segment] {
          case Leaf(n) =>
            return Found(n);
          case Inner(children) =>
            serverPath := children;
        }
      } else {
        // No such segment in this node.
        return Failed(Status(500));
      }
      i := i + 1;
    }
    return NoLeaf;
  }

  /** Once a leaf is reached the rest of the path is ignored: extending the
      path does not change where the walk ends. */
  lemma {:induction false} WalkIgnoresRemainder(node: Routes, steps: int, path: seq<string>, rest: seq<string>)
    requires WalkFrom(node, steps, path).Found?
    ensures WalkFrom(node, steps, path + rest) == WalkFrom(node, steps, path)
    decreases steps
  {
    assert (path + rest)[0] == path[0];
    if node[path[0]].Inner? {
      assert (path + rest)[1..] == path[1..] + rest;
      WalkIgnoresRemainder(node[path[0]].children, steps - 1, path[1..], rest);
    }
  }

  /** A path shorter than the depth never uses the depth up: the walk
      either meets a leaf or throws. Conversely, using the depth up needs a
      path at least that long. */
  lemma {:induction false} ShortPathNeverExhaustsDepth(node: Routes, steps: int, path: seq<string>)
    requires |path| < steps
    ensures WalkFrom(node, steps, path).Found? || WalkFrom(node, steps, path).Failed?
    decreases steps
  {
    if |path| > 0 && path[0] in node && node[path[0]].Inner? {
      ShortPathNeverExhaustsDepth(node[path[0]].children, steps - 1, path[1..]);
    }
  }

  /** A walk that meets a leaf has consumed between one and `steps`
      segments, and that leaf sits at the end of exactly those segments. */
  lemma {:induction false} FoundIsLeafOnPath(node: Routes, steps: int, path: seq<string>)
    requires WalkFrom(node, steps, path).Found?
    ensures exists j :: 1 <= j <= steps && j <= |path| && LeafAt(node, path[..j]) == Some(WalkFrom(node, steps, path).index)
    decreases steps
  {
    if node[path[0]].Leaf? {
      assert path[..1] == [path[0]];
      assert LeafAt(node, path[..1]) == Some(node[path[0]].index);
    } else {
      var c := node[path[0]].children;
      FoundIsLeafOnPath(c, steps - 1, path[1..]);
      var j :| 1 <= j <= steps - 1 && j <= |path[1..]| && LeafAt(c, path[1..][..j]) == Some(WalkFrom(c, steps - 1, path[1..]).index);
      assert path[..j + 1][0] == path[0] && path[..j + 1][1..] == path[1..][..j];
    }
  }

  /** The leaf index reached by following exactly the segments `segs`. */
  function LeafAt(node: Routes, segs: seq<string>): Option<int>
    decreases |segs|
  {
    if |segs| == 0 || segs[0] !in node then None
    else match node[segs[0]]
      case Leaf(n) => if |segs| == 1 then Some(n) else None
      case Inner(children) => LeafAt(children, segs[1..])
  }

  /** Every value of a flat table is the leaf `index`. */
  ghost predicate AllLeaves(routes: Routes, index: int)
  {
    forall k :: k in routes ==> routes[k] == Leaf(index)
  }

  /** On a flat table of depth at least one the walk is a single lookup of
      the first segment: found at the leaf's index, `throw 500` for an empty
      path or an unknown segment, and a TypeError for any non-empty path
      once "hasOwnProperty" is a key. */
  lemma FlatWalk(routes: Routes, index: int, steps: int, path: seq<string>)
    requires AllLeaves(routes, index) && steps >= 1
    ensures WalkFrom(routes, steps, path) ==
      if |path| == 0 then Failed(Status(500))
      else if OwnCheckKey in routes then Failed(TypeError)
      else if path[0] in routes then Found(index)
      else Failed(Status(500))
  {
  }

  /** A node with an own "hasOwnProperty" key makes every walk that reaches
      it with a segment left throw a TypeError. */
  lemma OwnCheckKeyBreaksWalk(node: Routes, steps: int, path: seq<string>)
    requires OwnCheckKey in node && steps >= 1 && |path| > 0
    ensures WalkFrom(node, steps, path) == Failed(TypeError)
  {
  }

  /** The result of the `forEach` of `reconstructRouteTable` over an
      endpoint array: the table afterwards, and whether it got to the end. */
  datatype Inserted = Inserted(routes: Routes, ok: bool)

  /** `routes[key] = 0` on the plain object: a new or overwritten own
      property, except for "__proto__", where the inherited setter ignores
      the number and nothing changes. */
  function Assign(routes: Routes, key: string): (r: Routes)
    ensures forall k :: k in r <==> k in routes || (k == key && k != ProtoKey)
    ensures key != ProtoKey ==> r[key] == Leaf(0)
    ensures forall k :: k in routes && (k != key || k == ProtoKey) ==> r[k] == routes[k]
  {
    if key == ProtoKey then routes else routes[key := Leaf(0)]
  }

  /** Reference definition of that `forEach`: every string endpoint, taken
      verbatim as the key, is assigned app index 0; the first element that
      is not a string ends it with `throw 500` and keeps what was inserted. */
  function InsertEndpoints(routes: Routes, items: seq<Value>): Inserted
    decreases |items|
  {
    if |items| == 0 then Inserted(routes, true)
    else if !items[0].Str? then Inserted(routes, false)
    else InsertEndpoints(Assign(routes, items[0].s), items[1..])
  }

  /** The string endpoints in front of the first element that is not a
      string: the ones a rebuild inserts before it stops. */
  function StringPrefix(items: seq<Value>): (prefix: seq<string>)
    ensures |prefix| <= |items|
    decreases |items|
  {
    if |items| == 0 || !items[0].Str? then [] else [items[0].s] + StringPrefix(items[1..])
  }

  /** The own properties that assigning 0 to each of `keys` creates:
      every key but "__proto__", mapped to app index 0. */
  function LeafMap(keys: seq<string>): Routes
  {
    map k | k in keys && k != ProtoKey :: Leaf(0)
  }

  /** What a rebuild does to the table: the previous keys all stay, the
      string endpoints before the first non-string are added (overwritten)
      with index 0, except "__proto__", and it completes exactly when every
      element is a string. */
  lemma InsertEndpointsEffect(routes: Routes, items: seq<Value>)
    ensures InsertEndpoints(routes, items).routes == routes + LeafMap(StringPrefix(items))
    ensures InsertEndpoints(routes, items).ok <==> forall i :: 0 <= i < |items| ==> items[i].Str?
    ensures InsertEndpoints(routes, items).ok <==> |StringPrefix(items)| == |items|
  {
    InsertedRoutes(routes, items);
    InsertedOk(routes, items);
    FullPrefixIffAllStrings(items);
  }

  lemma {:induction false} InsertedRoutes(routes: Routes, items: seq<Value>)
    ensures InsertEndpoints(routes, items).routes == routes + LeafMap(StringPrefix(items))
    decreases |items|
  {
    if |items| > 0 && items[0].Str? {
      var s := items[0].s;
      InsertedRoutes(Assign(routes, s), items[1..]);
      AssignThenLeaves(routes, s, StringPrefix(items[1..]));
    } else {
      assert LeafMap([]) == map[];
      assert routes + map[] == routes;
    }
  }

  lemma AssignThenLeaves(routes: Routes, s: string, tail: seq<string>)
    ensures Assign(routes, s) + LeafMap(tail) == routes + LeafMap([s] + tail)
  {
    if s == ProtoKey {
      assert LeafMap([s] + tail) == LeafMap(tail);
    } else {
      assert LeafMap([s] + tail) == LeafMap(tail)[s := Leaf(0)];
    }
  }

  lemma {:induction false} InsertedOk(routes: Routes, items: seq<Value>)
    ensures InsertEndpoints(routes, items).ok <==> |StringPrefix(items)| == |items|
    decreases |items|
  {
    if |items| > 0 && items[0].Str? {
      InsertedOk(Assign(routes, items[0].s), items[1..]);
    }
  }

  lemma {:induction false} FullPrefixIffAllStrings(items: seq<Value>)
    ensures |StringPrefix(items)| == |items| <==> forall i :: 0 <= i < |items| ==> items[i].Str?
    decreases |items|
  {
    if |items| > 0 {
      FullPrefixIffAllStrings(items[1..]);
      if forall i :: 0 <= i < |items[1..]| ==> items[1..][i].Str? {
        forall i | 0 <= i < |items| && items[0].Str? ensures items[i].Str? {
          if i > 0 { assert items[i] == items[1..][i - 1]; }
        }
      }
    }
  }

  /** A rebuild never removes a key, and inserts the endpoint strings
      verbatim: an endpoint written "/master" is the key "/master". Only
      "__proto__" is never inserted. */
  lemma KeysOnlyGrow(routes: Routes, items: seq<Value>, k: string)
    ensures k in InsertEndpoints(routes, items).routes <==>
      k in routes || (k in StringPrefix(items) && k != ProtoKey)
    ensures k in StringPrefix(items) && k != ProtoKey ==> InsertEndpoints(routes, items).routes[k] == Leaf(0)
    ensures k in routes && (k !in StringPrefix(items) || k == ProtoKey) ==>
      InsertEndpoints(routes, items).routes[k] == routes[k]
  {
    InsertEndpointsEffect(routes, items);
  }
}
