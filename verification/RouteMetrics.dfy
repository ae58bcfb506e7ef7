/** Request telemetry per route: recording requests in minute buckets, the route inventory, and the merge of both. */
module RouteMetrics {
  import opened MapSums
  import opened RoutePaths
  import opened Wrappers

  /* Counters. */

  datatype Field = Requests | Successes | ClientErrors | ServerErrors | DurationMs

  datatype Counters = Counters(
    requests: int, successes: int, clientErrors: int, serverErrors: int, durationMs: int)
  {
    function Get(field: Field): int {
      match field
      case Requests => requests
      case Successes => successes
      case ClientErrors => clientErrors
      case ServerErrors => serverErrors
      case DurationMs => durationMs
    }

    function Plus(other: Counters): (sum: Counters)
      ensures forall field: Field :: sum.Get(field) == Get(field) + other.Get(field)
    {
      Counters(requests + other.requests, successes + other.successes, clientErrors + other.clientErrors,
               serverErrors + other.serverErrors, durationMs + other.durationMs)
    }
  }

  const ZERO := Counters(0, 0, 0, 0, 0)

  /* Route keys. */

  // What telemetry is grouped by.
  datatype Route = Route(category: string, verb: string, routePattern: string, routeKey: string)

  predicate NoSpace(s: string) { ' ' !in s }

  function RouteKey(verb: string, routePattern: string): string {
    verb + " " + routePattern
  }

  // A key determines its method and its pattern, since no method holds a space.
  lemma RouteKeyIsUnique(verb: string, pattern: string, other: string, otherPattern: string)
    requires NoSpace(verb) && NoSpace(other) && RouteKey(verb, pattern) == RouteKey(other, otherPattern)
    ensures verb == other && pattern == otherPattern
  {
    var key := RouteKey(verb, pattern);
    assert key[|verb|] == ' ' == key[|other|];
    assert |verb| == |other|;
    assert key[..|verb|] == verb && RouteKey(other, otherPattern)[..|other|] == other;
    assert key[|verb| + 1..] == pattern && RouteKey(other, otherPattern)[|other| + 1..] == otherPattern;
  }

  // How a pattern is categorised.
  type Categorizer = string -> string

  function RouteOf(categorize: Categorizer, verb: string, pattern: string): Route {
    Route(categorize(pattern), verb, pattern, RouteKey(verb, pattern))
  }

  ghost predicate IsRoute(categorize: Categorizer, route: Route) {
    NoSpace(route.verb) && route == RouteOf(categorize, route.verb, route.routePattern)
  }

  lemma SameKeySameRoute(categorize: Categorizer, a: Route, b: Route)
    requires IsRoute(categorize, a) && IsRoute(categorize, b) && a.routeKey == b.routeKey
    ensures a == b
  {
    RouteKeyIsUnique(a.verb, a.routePattern, b.verb, b.routePattern);
  }

  /* Recording. */

  // A finished request: its method in upper case, and its minute and rounded duration in milliseconds.
  datatype Request = Request(
    verb: string, baseUrl: Option<string>, routePath: PathSpec, rawPath: string, statusCode: int, durationMs: int,
    minute: int)

  function Counts(r: Request): Counters {
    Counters(1, if 200 <= r.statusCode < 400 then 1 else 0, if 400 <= r.statusCode < 500 then 1 else 0,
             if r.statusCode >= 500 then 1 else 0, if r.durationMs < 0 then 0 else r.durationMs)
  }

  function RouteOfRequest(categorize: Categorizer, r: Request): Route {
    RouteOf(categorize, r.verb, NormalizeRoutePattern(r.baseUrl, r.routePath, r.rawPath))
  }

  datatype BucketId = BucketId(minute: int, routeKey: string)

  datatype Bucket = Bucket(route: Route, counters: Counters)

  type Buckets = map<BucketId, Bucket>

  function Record(categorize: Categorizer, buckets: Buckets, r: Request): Buckets {
    var route := RouteOfRequest(categorize, r);
    var id := BucketId(r.minute, route.routeKey);
    if id in buckets then buckets[id := buckets[id].(counters := buckets[id].counters.Plus(Counts(r)))]
    else buckets[id := Bucket(route, Counts(r))]
  }

  ghost function RecordAll(categorize: Categorizer, requests: seq<Request>): Buckets {
    if requests == [] then map[]
    else Record(categorize, RecordAll(categorize, requests[..|requests| - 1]), requests[|requests| - 1])
  }

  ghost predicate Methods(requests: seq<Request>) {
    forall i :: 0 <= i < |requests| ==> NoSpace(requests[i].verb)
  }

  ghost predicate Filed(categorize: Categorizer, buckets: Buckets) {
    forall id :: id in buckets ==> IsRoute(categorize, buckets[id].route) && buckets[id].route.routeKey == id.routeKey
  }

  lemma {:induction false} RecordedAreFiled(categorize: Categorizer, requests: seq<Request>)
    requires Methods(requests)
    ensures Filed(categorize, RecordAll(categorize, requests))
  {
    if requests != [] {
      RecordedAreFiled(categorize, requests[..|requests| - 1]);
    }
  }

  /* Sums over the buckets of a route. */

  ghost function Selected(buckets: Buckets, since: int, route: Route, field: Field): map<BucketId, int> {
    map id | id in buckets && id.minute >= since && buckets[id].route == route :: buckets[id].counters.Get(field)
  }

  ghost function Sum(buckets: Buckets, since: int, route: Route, field: Field): int {
    Total(Selected(buckets, since, route, field))
  }

  // The same sum over the requests themselves.
  ghost function Counted(categorize: Categorizer, requests: seq<Request>, since: int, route: Route, field: Field): int {
    if requests == [] then 0
    else
      var last := requests[|requests| - 1];
      Counted(categorize, requests[..|requests| - 1], since, route, field)
      + if last.minute >= since && RouteOfRequest(categorize, last) == route then Counts(last).Get(field) else 0
  }

  lemma RequestsAreRoutes(categorize: Categorizer, r: Request)
    requires NoSpace(r.verb)
    ensures IsRoute(categorize, RouteOfRequest(categorize, r))
  {
  }

  lemma RecordAdds(categorize: Categorizer, buckets: Buckets, r: Request, since: int, route: Route, field: Field)
    requires Filed(categorize, buckets) && NoSpace(r.verb)
    ensures Sum(Record(categorize, buckets, r), since, route, field)
         == Sum(buckets, since, route, field)
            + if r.minute >= since && RouteOfRequest(categorize, r) == route then Counts(r).Get(field) else 0
  {
    hide NormalizeRoutePattern, Counts, IsRoute;
    var own := RouteOfRequest(categorize, r);
    var id := BucketId(r.minute, own.routeKey);
    RequestsAreRoutes(categorize, r);
    if id in buckets {
      SameKeySameRoute(categorize, buckets[id].route, own);
    }
    var after := Record(categorize, buckets, r);
    SelectedAfter(buckets, id, after[id], since, route, field);
    if r.minute >= since && own == route {
      hide Selected;
      TotalUpdate(Selected(buckets, since, route, field), id, after[id].counters.Get(field));
      OldValue(buckets, id, since, route, field);
    }
  }

  lemma SelectedAfter(buckets: Buckets, id: BucketId, bucket: Bucket, since: int, route: Route, field: Field)
    requires id in buckets ==> buckets[id].route == bucket.route
    ensures Selected(buckets[id := bucket], since, route, field)
         == if id.minute >= since && bucket.route == route
            then Selected(buckets, since, route, field)[id := bucket.counters.Get(field)]
            else Selected(buckets, since, route, field)
  {
  }

  lemma OldValue(buckets: Buckets, id: BucketId, since: int, route: Route, field: Field)
    requires id.minute >= since && (id in buckets ==> buckets[id].route == route)
    ensures var selected := Selected(buckets, since, route, field);
            && (id in selected <==> id in buckets)
            && (id in buckets ==> selected[id] == buckets[id].counters.Get(field))
  {
  }

  // The buckets of a route hold what its requests add up to, minute by minute and field by field.
  lemma {:induction false} BucketsCountRequests(
      categorize: Categorizer, requests: seq<Request>, since: int, route: Route, field: Field)
    requires Methods(requests)
    ensures Sum(RecordAll(categorize, requests), since, route, field)
         == Counted(categorize, requests, since, route, field)
  {
    if requests == [] {
      assert Selected(map[], since, route, field) == map[];
    } else {
      var earlier, last := requests[..|requests| - 1], requests[|requests| - 1];
      BucketsCountRequests(categorize, earlier, since, route, field);
      RecordedAreFiled(categorize, earlier);
      RecordAdds(categorize, RecordAll(categorize, earlier), last, since, route, field);
    }
  }

  /* The metrics of a period: one row for every route with buckets in it. */

  datatype Metric = Metric(route: Route, counters: Counters)

  // The rows that grouping the buckets gives, in any order.
  ghost predicate Grouped(rows: seq<Metric>, buckets: Buckets, since: int) {
    && (forall i, j :: 0 <= i < j < |rows| ==> rows[i].route != rows[j].route)
    && (forall row :: row in rows ==>
          exists id :: id in buckets && id.minute >= since && buckets[id].route == row.route)
    && (forall id :: id in buckets && id.minute >= since ==>
          exists row :: row in rows && row.route == buckets[id].route)
    && (forall row, field: Field :: row in rows ==> row.counters.Get(field) == Sum(buckets, since, row.route, field))
  }

  ghost predicate DistinctKeys(rows: seq<Metric>) {
    forall i, j :: 0 <= i < j < |rows| ==> rows[i].route.routeKey != rows[j].route.routeKey
  }

  lemma GroupedHaveDistinctKeys(categorize: Categorizer, rows: seq<Metric>, buckets: Buckets, since: int)
    requires Filed(categorize, buckets) && Grouped(rows, buckets, since)
    ensures DistinctKeys(rows) && forall row :: row in rows ==> IsRoute(categorize, row.route)
  {
    hide IsRoute, Sum;
    assert forall row :: row in rows ==> IsRoute(categorize, row.route);
    forall i, j | 0 <= i < j < |rows| ensures rows[i].route.routeKey != rows[j].route.routeKey {
      assert rows[i] in rows && rows[j] in rows;
      if rows[i].route.routeKey == rows[j].route.routeKey {
        SameKeySameRoute(categorize, rows[i].route, rows[j].route);
      }
    }
  }

  /* The inventory. */

  datatype RequestMethod = GET | POST | PUT | DELETE | PATCH | OPTIONS | HEAD | ALL | Unlisted

  function MethodLabel(verb: RequestMethod): (name: string)
    ensures NoSpace(name)
  {
    match verb
    case GET => "GET"
    case POST => "POST"
    case PUT => "PUT"
    case DELETE => "DELETE"
    case PATCH => "PATCH"
    case OPTIONS => "OPTIONS"
    case HEAD => "HEAD"
    case ALL => "ALL"
    case Unlisted => "OTHER"
  }

  // A handler method of a controller.
  datatype Handler = Handler(verb: RequestMethod, controllerPath: PathSpec, handlerPath: PathSpec)

  function RoutesOf(categorize: Categorizer, h: Handler): set<Route> {
    set pattern | pattern in Patterns(h.controllerPath, h.handlerPath) ::
      RouteOf(categorize, MethodLabel(h.verb), pattern)
  }

  ghost predicate Listed(categorize: Categorizer, handlers: seq<Handler>, route: Route) {
    exists i :: 0 <= i < |handlers| && route in RoutesOf(categorize, handlers[i])
  }

  // The listed routes, each under its key.
  ghost predicate IsInventory(categorize: Categorizer, handlers: seq<Handler>, discovered: map<string, Route>) {
    && (forall key :: key in discovered ==>
          discovered[key].routeKey == key && Listed(categorize, handlers, discovered[key]))
    && (forall route :: Listed(categorize, handlers, route) ==> route.routeKey in discovered)
  }

  lemma ListedIsRoute(categorize: Categorizer, handlers: seq<Handler>, route: Route)
    requires Listed(categorize, handlers, route)
    ensures IsRoute(categorize, route)
  {
  }

  // Some patterns of one handler put in.
  ghost predicate Discovered(
      categorize: Categorizer, before: map<string, Route>, after: map<string, Route>, verb: string,
      patterns: set<string>)
  {
    && (forall key :: key in before ==> key in after)
    && (forall pattern :: pattern in patterns ==> RouteKey(verb, pattern) in after)
    && (forall key :: key in after ==>
          || (key in before && after[key] == before[key])
          || (exists pattern :: pattern in patterns && after[key] == RouteOf(categorize, verb, pattern)
                                && key == RouteKey(verb, pattern)))
  }

  lemma NothingDiscovered(categorize: Categorizer)
    ensures IsInventory(categorize, [], map[])
  {
  }

  lemma DiscoverNone(categorize: Categorizer, before: map<string, Route>, verb: string)
    ensures Discovered(categorize, before, before, verb, {})
  {
  }

  lemma DiscoverOne(
      categorize: Categorizer, before: map<string, Route>, after: map<string, Route>, verb: string,
      patterns: set<string>, pattern: string)
    requires Discovered(categorize, before, after, verb, patterns)
    ensures Discovered(categorize, before, after[RouteKey(verb, pattern) := RouteOf(categorize, verb, pattern)], verb,
                       patterns + {pattern})
  {
    hide RouteKey;
    assert pattern in patterns + {pattern};
    forall key | key in after
      ensures (key in before && after[key] == before[key])
           || exists p :: p in patterns + {pattern} && after[key] == RouteOf(categorize, verb, p)
                          && key == RouteKey(verb, p)
    {
      if !(key in before && after[key] == before[key]) {
        var p :| p in patterns && after[key] == RouteOf(categorize, verb, p) && key == RouteKey(verb, p);
        assert p in patterns + {pattern};
      }
    }
  }

  lemma InventoryGrows(
      categorize: Categorizer, handlers: seq<Handler>, i: nat, before: map<string, Route>, after: map<string, Route>)
    requires i < |handlers| && IsInventory(categorize, handlers[..i], before)
    requires var h := handlers[i];
             Discovered(categorize, before, after, MethodLabel(h.verb), Patterns(h.controllerPath, h.handlerPath))
    ensures IsInventory(categorize, handlers[..i + 1], after)
  {
    hide Patterns;
    var h, grown := handlers[i], handlers[..i + 1];
    assert grown[i] == h && grown == handlers[..i] + [h];
    forall key | key in after ensures after[key].routeKey == key && Listed(categorize, grown, after[key]) {
      if key in before && after[key] == before[key] {
        var k :| 0 <= k < i && before[key] in RoutesOf(categorize, handlers[..i][k]);
        assert after[key] in RoutesOf(categorize, grown[k]);
      } else {
        assert after[key] in RoutesOf(categorize, grown[i]);
      }
    }
    forall route | Listed(categorize, grown, route) ensures route.routeKey in after {
      var k :| 0 <= k < i + 1 && route in RoutesOf(categorize, grown[k]);
      if k < i {
        assert route in RoutesOf(categorize, handlers[..i][k]);
        assert Listed(categorize, handlers[..i], route);
      }
    }
  }

  class ApiRouteInventoryService {
    const categorize: Categorizer
    const handlers: seq<Handler>
    var cachedInventory: Option<map<string, Route>>

    ghost predicate Valid()
      reads this
    {
      cachedInventory.Some? ==> IsInventory(categorize, handlers, cachedInventory.value)
    }

    constructor (categorize: Categorizer, handlers: seq<Handler>)
      ensures Valid() && this.categorize == categorize && this.handlers == handlers && cachedInventory == None
    {
      this.categorize := categorize;
      this.handlers := handlers;
      cachedInventory := None;
    }

    method GetRouteInventory() returns (inventory: map<string, Route>)
      requires Valid()
      modifies this
      ensures Valid() && cachedInventory == Some(inventory) && IsInventory(categorize, handlers, inventory)
      ensures old(cachedInventory).Some? ==> cachedInventory == old(cachedInventory)
    {
      if cachedInventory.Some? {
        return cachedInventory.value;
      }
      hide RoutesOf, Patterns, Discovered, IsInventory;
      NothingDiscovered(categorize);
      var discovered: map<string, Route> := map[];
      for i := 0 to |handlers|
        invariant IsInventory(categorize, handlers[..i], discovered)
      {
        var h := handlers[i];
        var verb := MethodLabel(h.verb);
        var patterns := CombinePaths(h.controllerPath, h.handlerPath);
        ghost var all, before := patterns, discovered;
        DiscoverNone(categorize, before, verb);
        while patterns != {}
          invariant patterns <= all
          invariant Discovered(categorize, before, discovered, verb, all - patterns)
        {
          var routePattern :| routePattern in patterns;
          var routeKey := RouteKey(verb, routePattern);
          DiscoverOne(categorize, before, discovered, verb, all - patterns, routePattern);
          discovered := discovered[routeKey := Route(categorize(routePattern), verb, routePattern, routeKey)];
          assert all - patterns + {routePattern} == all - (patterns - {routePattern});
          patterns := patterns - {routePattern};
        }
        assert all - patterns == all;
        InventoryGrows(categorize, handlers, i, before, discovered);
      }
      assert handlers[..|handlers|] == handlers;
      cachedInventory := Some(discovered);
      inventory := discovered;
    }
  }

  /* The merge. */

  // Every route key once: observed rows with their counts, renamed as the inventory names them, and the routes
  // without requests with none.
  ghost predicate IsMerge(observed: seq<Metric>, inventory: map<string, Route>, merged: map<string, Metric>) {
    && (forall key :: key in merged
          <==> key in inventory || exists i :: 0 <= i < |observed| && observed[i].route.routeKey == key)
    && (forall key :: key in merged ==>
          && merged[key].route.routeKey == key
          && (key in inventory ==> merged[key].route == inventory[key]))
    && (forall i :: 0 <= i < |observed| ==>
          var key := observed[i].route.routeKey;
          && merged[key].counters == observed[i].counters
          && (key !in inventory ==> merged[key] == observed[i]))
    && (forall key :: key in merged && (forall i :: 0 <= i < |observed| ==> observed[i].route.routeKey != key) ==>
          merged[key].counters == ZERO)
  }

  class ApiObservabilityService {
    const categorize: Categorizer
    var buckets: Buckets

    constructor (categorize: Categorizer)
      ensures this.categorize == categorize && buckets == map[]
    {
      this.categorize := categorize;
      buckets := map[];
    }

    method RecordRequest(r: Request)
      modifies this
      ensures buckets == Record(categorize, old(buckets), r)
    {
      var routePattern := NormalizeRoutePattern(r.baseUrl, r.routePath, r.rawPath);
      var routeKey := RouteKey(r.verb, routePattern);
      var successCount := if r.statusCode >= 200 && r.statusCode < 400 then 1 else 0;
      var clientErrorCount := if r.statusCode >= 400 && r.statusCode < 500 then 1 else 0;
      var serverErrorCount := if r.statusCode >= 500 then 1 else 0;
      var totalDurationMs := if r.durationMs < 0 then 0 else r.durationMs;
      var counters := Counters(1, successCount, clientErrorCount, serverErrorCount, totalDurationMs);
      var id := BucketId(r.minute, routeKey);
      if id in buckets {
        buckets := buckets[id := buckets[id].(counters := buckets[id].counters.Plus(counters))];
      } else {
        buckets := buckets[id := Bucket(Route(categorize(routePattern), r.verb, routePattern, routeKey), counters)];
      }
    }

    // The merge of the grouped rows with the inventory; when two rows share a key the later one replaces the earlier.
    method MergeMetrics(observed: seq<Metric>, inventory: map<string, Route>) returns (merged: map<string, Metric>)
      requires forall key :: key in inventory ==> inventory[key].routeKey == key
      ensures DistinctKeys(observed) ==> IsMerge(observed, inventory, merged)
    {
      merged := map[];
      for i := 0 to |observed|
        invariant forall key :: key in merged <==> exists k :: 0 <= k < i && observed[k].route.routeKey == key
        invariant forall key :: key in merged ==> merged[key].route.routeKey == key
        invariant DistinctKeys(observed) ==> forall k :: 0 <= k < i ==>
            merged[observed[k].route.routeKey] == observed[k]
      {
        merged := merged[observed[i].route.routeKey := observed[i]];
      }
      ghost var before := merged;
      var routes := inventory.Keys;
      while routes != {}
        invariant routes <= inventory.Keys
        invariant forall key :: key in merged <==> key in before || (key in inventory && key !in routes)
        invariant forall key :: key in merged ==> merged[key].route.routeKey == key
        invariant forall key :: key in inventory && key !in routes ==> merged[key].route == inventory[key]
        invariant forall key :: key in before ==> merged[key].counters == before[key].counters
        invariant forall key :: key in before && (key in routes || key !in inventory) ==> merged[key] == before[key]
        invariant forall key :: key in merged && key !in before ==> merged[key].counters == ZERO
      {
        var key :| key in routes;
        var route := inventory[key];
        if route.routeKey in merged {
          var existing := merged[route.routeKey];
          merged := merged[route.routeKey := existing.(route := existing.route.(
            category := route.category, verb := route.verb, routePattern := route.routePattern))];
        } else {
          merged := merged[route.routeKey := Metric(route, ZERO)];
        }
        routes := routes - {key};
      }
    }
  }

  /* What the metrics of a period say. */

  lemma {:induction false} CountedIsFound(
      categorize: Categorizer, requests: seq<Request>, since: int, route: Route, field: Field)
    ensures Counted(categorize, requests, since, route, field) != 0 ==>
      exists i :: 0 <= i < |requests| && requests[i].minute >= since && RouteOfRequest(categorize, requests[i]) == route
  {
    if requests != [] {
      CountedIsFound(categorize, requests[..|requests| - 1], since, route, field);
    }
  }

  lemma {:induction false} RequestHasBucket(categorize: Categorizer, requests: seq<Request>, i: nat)
    requires Methods(requests) && i < |requests|
    ensures var route := RouteOfRequest(categorize, requests[i]);
            var id := BucketId(requests[i].minute, route.routeKey);
            && id in RecordAll(categorize, requests)
            && RecordAll(categorize, requests)[id].route == route
  {
    hide NormalizeRoutePattern, Counts, IsRoute, RouteOf;
    var earlier := requests[..|requests| - 1];
    RecordedAreFiled(categorize, requests);
    RequestsAreRoutes(categorize, requests[i]);
    if i < |earlier| {
      RequestHasBucket(categorize, earlier, i);
    } else {
      var id := BucketId(requests[i].minute, RouteOfRequest(categorize, requests[i]).routeKey);
      SameKeySameRoute(categorize, RecordAll(categorize, requests)[id].route, RouteOfRequest(categorize, requests[i]));
    }
  }

  lemma {:induction false} MergedIsRoute(
      categorize: Categorizer, handlers: seq<Handler>, requests: seq<Request>, since: int, observed: seq<Metric>,
      inventory: map<string, Route>, merged: map<string, Metric>, key: string)
    requires Methods(requests) && Grouped(observed, RecordAll(categorize, requests), since)
    requires IsInventory(categorize, handlers, inventory) && IsMerge(observed, inventory, merged) && key in merged
    ensures IsRoute(categorize, merged[key].route)
  {
    hide NormalizeRoutePattern, RouteOf, IsRoute, Sum, RecordAll, Listed;
    RecordedAreFiled(categorize, requests);
    GroupedHaveDistinctKeys(categorize, observed, RecordAll(categorize, requests), since);
    if key in inventory {
      ListedIsRoute(categorize, handlers, inventory[key]);
    } else {
      var i :| 0 <= i < |observed| && observed[i].route.routeKey == key;
      assert observed[i] in observed;
    }
  }

  // After any requests, merging the metrics of a period with the inventory gives every route under its own name and
  // with exactly what its requests in the period add up to.
  lemma {:induction false} MetricsCountRequests(
      categorize: Categorizer, handlers: seq<Handler>, requests: seq<Request>, since: int, observed: seq<Metric>,
      inventory: map<string, Route>, merged: map<string, Metric>, key: string, field: Field)
    requires Methods(requests) && Grouped(observed, RecordAll(categorize, requests), since)
    requires IsInventory(categorize, handlers, inventory) && IsMerge(observed, inventory, merged) && key in merged
    ensures
      var Route(category, verb, pattern, routeKey) := merged[key].route;
      NoSpace(verb) && category == categorize(pattern) && routeKey == verb + " " + pattern == key
    ensures merged[key].counters.Get(field) == Counted(categorize, requests, since, merged[key].route, field)
  {
    assert IsRoute(categorize, merged[key].route) by {
      MergedIsRoute(categorize, handlers, requests, since, observed, inventory, merged, key);
    }
    hide NormalizeRoutePattern, RouteOf, IsRoute, Sum, RecordAll, Listed;
    var buckets, route := RecordAll(categorize, requests), merged[key].route;
    RecordedAreFiled(categorize, requests);
    GroupedHaveDistinctKeys(categorize, observed, buckets, since);
    if key in inventory {
      ListedIsRoute(categorize, handlers, inventory[key]);
    }
    if i :| 0 <= i < |observed| && observed[i].route.routeKey == key {
      assert observed[i] in observed;
      SameKeySameRoute(categorize, observed[i].route, route);
      BucketsCountRequests(categorize, requests, since, route, field);
    } else {
      assert forall row :: row in observed ==> row.route.routeKey != key;
      NoneCounted(categorize, requests, since, observed, route, field);
    }
  }

  // The requests of a route in the period.
  ghost function Those(requests: seq<Request>, since: int, verb: string, pattern: string): seq<Request> {
    if requests == [] then []
    else
      var last := requests[|requests| - 1];
      Those(requests[..|requests| - 1], since, verb, pattern)
      + if last.minute >= since && last.verb == verb
           && NormalizeRoutePattern(last.baseUrl, last.routePath, last.rawPath) == pattern
        then [last] else []
  }

  // How many of them answered with a status from one number up to below another.
  function Answered(requests: seq<Request>, from: int, to: int): nat {
    if requests == [] then 0
    else
      var last := requests[|requests| - 1];
      Answered(requests[..|requests| - 1], from, to) + if from <= last.statusCode < to then 1 else 0
  }

  function Duration(requests: seq<Request>): int {
    if requests == [] then 0
    else
      var last := requests[|requests| - 1];
      Duration(requests[..|requests| - 1]) + if last.durationMs > 0 then last.durationMs else 0
  }

  lemma IsOfRoute(categorize: Categorizer, r: Request, verb: string, pattern: string)
    ensures RouteOfRequest(categorize, r) == Route(categorize(pattern), verb, pattern, verb + " " + pattern)
        <==> r.verb == verb && NormalizeRoutePattern(r.baseUrl, r.routePath, r.rawPath) == pattern
  {
    hide NormalizeRoutePattern;
  }

  lemma CountsByStatus(r: Request, above: int)
    requires r.statusCode < above
    ensures Counts(r).Get(Requests) == 1 && Counts(r).Get(DurationMs) == if r.durationMs > 0 then r.durationMs else 0
    ensures Counts(r).Get(Successes) == if 200 <= r.statusCode < 400 then 1 else 0
    ensures Counts(r).Get(ClientErrors) == if 400 <= r.statusCode < 500 then 1 else 0
    ensures Counts(r).Get(ServerErrors) == if 500 <= r.statusCode < above then 1 else 0
  {
  }

  lemma {:induction false} OneMoreRequest(requests: seq<Request>, r: Request, from: int, to: int)
    ensures Answered(requests + [r], from, to)
         == Answered(requests, from, to) + if from <= r.statusCode < to then 1 else 0
    ensures Duration(requests + [r]) == Duration(requests) + if r.durationMs > 0 then r.durationMs else 0
  {
    assert (requests + [r])[..|requests|] == requests;
  }

  // What a route's counters mean: the number of its requests, of those answered with 200 to 399, 400 to 499 and 500 or
  // more, and the time they took.
  lemma {:induction false} CountersMean(
      categorize: Categorizer, requests: seq<Request>, since: int, verb: string, pattern: string, above: int)
    requires Methods(requests) && NoSpace(verb) && above > 500
    requires forall i :: 0 <= i < |requests| ==> requests[i].statusCode < above
    ensures
      var route := Route(categorize(pattern), verb, pattern, verb + " " + pattern);
      var those := Those(requests, since, verb, pattern);
      && Counted(categorize, requests, since, route, Requests) == |those|
      && Counted(categorize, requests, since, route, Successes) == Answered(those, 200, 400)
      && Counted(categorize, requests, since, route, ClientErrors) == Answered(those, 400, 500)
      && Counted(categorize, requests, since, route, ServerErrors) == Answered(those, 500, above)
      && Counted(categorize, requests, since, route, DurationMs) == Duration(those)
  {
    if requests != [] {
      var earlier, last := requests[..|requests| - 1], requests[|requests| - 1];
      CountersMean(categorize, earlier, since, verb, pattern, above);
      var those := Those(earlier, since, verb, pattern);
      IsOfRoute(categorize, last, verb, pattern);
      CountsByStatus(last, above);
      hide NormalizeRoutePattern, Answered, Duration, Counts, RouteOf, RouteOfRequest, NoSpace;
      OneMoreRequest(those, last, 200, 400);
      OneMoreRequest(those, last, 400, 500);
      OneMoreRequest(those, last, 500, above);
      assert those + [] == those;
    }
  }

  // The names of the methods.
  predicate Names(verb: RequestMethod, name: string) {
    || (verb == GET && name == "GET") || (verb == POST && name == "POST") || (verb == PUT && name == "PUT")
    || (verb == DELETE && name == "DELETE") || (verb == PATCH && name == "PATCH") || (verb == HEAD && name == "HEAD")
    || (verb == OPTIONS && name == "OPTIONS")
  }

  lemma NamesAreLabels(verb: RequestMethod, name: string)
    requires Names(verb, name)
    ensures MethodLabel(verb) == name
  {
  }

  // A request that a handler serves on the path it was reached by is recorded as one of the handler's listed routes,
  // unless that path is blank.
  lemma ServedIsListed(categorize: Categorizer, handlers: seq<Handler>, i: nat, base: string, r: Request)
    requires i < |handlers| && Names(handlers[i].verb, r.verb)
    requires var controller := handlers[i].controllerPath;
             controller == One(base) || (controller.Many? && base in controller.paths)
    requires r.baseUrl == Some(base) && r.routePath == handlers[i].handlerPath
    requires match r.routePath
             case One(path) => !Blank(path)
             case Many(paths) => paths != [] && !Blank(paths[0])
             case Missing => false
    ensures Listed(categorize, handlers, RouteOfRequest(categorize, r))
  {
    hide Patterns, NormalizeRoutePattern, MethodLabel, Names;
    var h := handlers[i];
    NamesAreLabels(h.verb, r.verb);
    RecordedIsListed(h.controllerPath, base, h.handlerPath, r.rawPath);
    assert RouteOfRequest(categorize, r) in RoutesOf(categorize, h);
  }

  // Every route requested in the period has its metric, and so has every listed route.
  lemma {:induction false} RequestedRouteHasMetric(
      categorize: Categorizer, requests: seq<Request>, i: nat, since: int, observed: seq<Metric>,
      inventory: map<string, Route>, merged: map<string, Metric>)
    requires Methods(requests) && i < |requests| && requests[i].minute >= since
    requires Grouped(observed, RecordAll(categorize, requests), since) && IsMerge(observed, inventory, merged)
    ensures RouteOfRequest(categorize, requests[i]).routeKey in merged
  {
    hide NormalizeRoutePattern, RecordAll, Sum;
    RequestHasBucket(categorize, requests, i);
    var route := RouteOfRequest(categorize, requests[i]);
    var row :| row in observed && row.route == route;
    var k :| 0 <= k < |observed| && observed[k] == row;
  }

  lemma ListedRouteHasMetric(
      categorize: Categorizer, handlers: seq<Handler>, route: Route, observed: seq<Metric>,
      inventory: map<string, Route>, merged: map<string, Metric>)
    requires IsInventory(categorize, handlers, inventory) && IsMerge(observed, inventory, merged)
    requires Listed(categorize, handlers, route)
    ensures route.routeKey in merged && merged[route.routeKey].route == route
  {
    hide Patterns;
    ListedIsRoute(categorize, handlers, route);
    ListedIsRoute(categorize, handlers, inventory[route.routeKey]);
    SameKeySameRoute(categorize, inventory[route.routeKey], route);
  }

  lemma {:induction false} NoneCounted(
      categorize: Categorizer, requests: seq<Request>, since: int, observed: seq<Metric>, route: Route, field: Field)
    requires Methods(requests) && Grouped(observed, RecordAll(categorize, requests), since)
    requires forall row :: row in observed ==> row.route != route
    ensures Counted(categorize, requests, since, route, field) == 0
  {
    hide NormalizeRoutePattern, RouteOf, IsRoute, Sum, RecordAll;
    CountedIsFound(categorize, requests, since, route, field);
    forall i | 0 <= i < |requests| && requests[i].minute >= since
      ensures RouteOfRequest(categorize, requests[i]) != route
    {
      RequestHasBucket(categorize, requests, i);
    }
  }
}
