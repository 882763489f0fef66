/**
 * The routing of the older server in old/server.js: a `switch` on the
 * request URL whose cases call the handlers of master.js and use.js, with a
 * default that answers "Wrong url". JavaScript `switch` compares with strict
 * equality and falls through into the next clause where a case has no
 * `break`; the case '/master/pool_sync' has none.
 */
module LegacyRouter {

  /** What a clause of the switch does with the request: call one of the
      handlers, or write a reply itself (status, content type, body). */
  datatype Action =
    | MasterMain                 // the main handler of master.js
    | MasterPoolSync             // the pool synchronisation handler of master.js
    | UsageMain                  // the main handler of use.js
    | UsageCardId                // the card id handler of use.js
    | Reply(status: int, contentType: string, body: string)

  /** A `case` clause: its key, what its statements do, and whether it
      ends with `break`. */
  datatype Case = Case(key: string, actions: seq<Action>, breaks: bool)

  /** The case clauses of the switch, in source order. */
  const Cases: seq<Case> := [
    Case("/master", [MasterMain], true),
    Case("/master/pool_sync", [MasterPoolSync], false),
    Case("/use", [UsageMain], true),
    Case("/use/card_id", [UsageCardId], true)
  ]

  /** The `default` clause, which stands last. */
  const Default: seq<Action> := [Reply(200, "text/plain; charset=utf-8", "Wrong url")]

  /** The first case whose key equals `url`, or the number of cases when
      none does. */
  function FirstMatch(cases: seq<Case>, url: string): (k: nat)
    ensures k <= |cases|
    ensures forall j :: 0 <= j < k ==> cases[j].key != url
    ensures k < |cases| ==> cases[k].key == url
    decreases |cases|
  {
    if |cases| == 0 then 0
    else if cases[0].key == url then 0
    else 1 + FirstMatch(cases[1..], url)
  }

  /** Executing the clauses from case `i` on: its statements, then on to
      the next clause unless it breaks; the `default` clause follows the
      last case. */
  function RunFrom(cases: seq<Case>, dflt: seq<Action>, i: nat): seq<Action>
    decreases |cases| - i
  {
    if i >= |cases| then dflt
    else cases[i].actions + (if cases[i].breaks then [] else RunFrom(cases, dflt, i + 1))
  }

  /** A `switch` whose `default` is the last clause: jump to the first
      matching case, or to `default` when none matches, and run from there. */
  function Switch(cases: seq<Case>, dflt: seq<Action>, url: string): seq<Action>
  {
    RunFrom(cases, dflt, FirstMatch(cases, url))
  }

  /** The request handler of old/server.js. */
  function Route(url: string): (r: seq<Action>)
    ensures 1 <= |r| <= 2
    ensures |r| == 2 ==> r == [MasterPoolSync, UsageMain]
  {
    Switch(Cases, Default, url)
  }

  /** The URLs some case is keyed by. */
  function Keys(cases: seq<Case>): (keys: set<string>)
    ensures forall j :: 0 <= j < |cases| ==> cases[j].key in keys
    ensures forall u :: u in keys ==> exists j :: 0 <= j < |cases| && cases[j].key == u
    decreases |cases|
  {
    if |cases| == 0 then {} else {cases[0].key} + Keys(cases[1..])
  }

  /** The `default` clause runs alone exactly for a URL no case is keyed
      by. */
  lemma {:induction false} SwitchDefaultIff(cases: seq<Case>, dflt: seq<Action>, url: string)
    requires forall j :: 0 <= j < |cases| ==> |cases[j].actions| > 0 && cases[j].actions[0] !in dflt
    ensures |dflt| > 0 ==> (Switch(cases, dflt, url) == dflt <==> url !in Keys(cases))
  {
    var k := FirstMatch(cases, url);
    if k < |cases| {
      assert url in Keys(cases);
      var r := RunFrom(cases, dflt, k);
      assert r[0] == cases[k].actions[0] && r[0] !in dflt;
    } else {
      assert forall j :: 0 <= j < |cases| ==> cases[j].key != url;
    }
  }

  /** When every case breaks, a matched case runs exactly its own
      statements: nothing falls through. */
  lemma SwitchWithBreaks(cases: seq<Case>, dflt: seq<Action>, url: string)
    requires forall j :: 0 <= j < |cases| ==> cases[j].breaks
    ensures var k := FirstMatch(cases, url);
      Switch(cases, dflt, url) == if k < |cases| then cases[k].actions else dflt
  {
    var k := FirstMatch(cases, url);
    if k < |cases| {
      assert cases[k].actions + [] == cases[k].actions;
    }
  }

  /** A matched case's statements always come first, and the run is a
      finite chain of consecutive clauses. */
  lemma {:induction false} RunFromStartsWithCase(cases: seq<Case>, dflt: seq<Action>, i: nat)
    requires i < |cases|
    ensures |RunFrom(cases, dflt, i)| >= |cases[i].actions|
    ensures RunFrom(cases, dflt, i)[..|cases[i].actions|] == cases[i].actions
  {
    var r := RunFrom(cases, dflt, i);
    var tail := if cases[i].breaks then [] else RunFrom(cases, dflt, i + 1);
    assert r == cases[i].actions + tail;
    assert (cases[i].actions + tail)[..|cases[i].actions|] == cases[i].actions;
  }

  /** "/master" calls `master.main` only. */
  lemma RouteMaster()
    ensures Route("/master") == [MasterMain]
  {
    assert FirstMatch(Cases, "/master") == 0;
  }

  /** "/master/pool_sync" has no `break`: it calls `master.pool_sync` and
      then falls through into `usage.main` on the same response. */
  lemma RoutePoolSyncFallsThrough()
    ensures Route("/master/pool_sync") == [MasterPoolSync, UsageMain]
  {
    assert Cases[0].key != "/master/pool_sync";
    assert FirstMatch(Cases, "/master/pool_sync") == 1;
  }

  /** "/use" calls `usage.main` only. */
  lemma RouteUse()
    ensures Route("/use") == [UsageMain]
  {
    assert Cases[0].key != "/use" && Cases[1].key != "/use";
    assert FirstMatch(Cases, "/use") == 2;
  }

  /** "/use/card_id" calls `usage.card_id` only. */
  lemma RouteCardId()
    ensures Route("/use/card_id") == [UsageCardId]
  {
    assert Cases[0].key != "/use/card_id" && Cases[1].key != "/use/card_id";
    assert Cases[2].key != "/use/card_id";
    assert FirstMatch(Cases, "/use/card_id") == 3;
  }

  /** Every other URL gets the 200 "Wrong url" reply and nothing else; the
      match is exact, so "/master/" or "/use?x=1" land here too. */
  lemma {:induction false} RouteDefaultIff(url: string)
    ensures Route(url) == Default <==>
      url != "/master" && url != "/master/pool_sync" && url != "/use" && url != "/use/card_id"
  {
    assert Keys(Cases) == {"/master", "/master/pool_sync", "/use", "/use/card_id"} by {
      assert Cases[1..][1..][1..][1..] == [];
    }
    SwitchDefaultIff(Cases, Default, url);
  }

  /** The fall-through is the only route that runs two handlers. */
  lemma RouteTwoHandlersIff(url: string)
    ensures |Route(url)| == 2 <==> url == "/master/pool_sync"
  {
    if url == "/master" {
      RouteMaster();
    } else if url == "/master/pool_sync" {
      RoutePoolSyncFallsThrough();
    } else if url == "/use" {
      RouteUse();
    } else if url == "/use/card_id" {
      RouteCardId();
    } else {
      RouteDefaultIff(url);
    }
  }
}
