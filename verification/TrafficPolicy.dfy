/** Inbound traffic policies: rules and policies are objects that are shared between lists and updated in place. */
module TrafficPolicy {
  import opened Wrappers
  import opened Collections

  datatype PathMatchType = PathMatchRegex | PathMatchExact | PathMatchPrefix

  /** `headers` is None for a nil map: an empty map is a different value to reflect.DeepEqual. */
  datatype HTTPRouteMatch = HTTPRouteMatch(
    path: string, pathMatchType: PathMatchType, methods: seq<string>, headers: Option<map<string, string>>)

  datatype WeightedCluster = WeightedCluster(name: string, weight: nat)

  /** A per-route rate limit, by its contents. */
  type RateLimit = string

  datatype Route = Route(routeMatch: HTTPRouteMatch, clusters: set<WeightedCluster>, rateLimit: Option<RateLimit>)

  /** The HTTP routes of an UpstreamTrafficSetting, each with its rate limit. */
  datatype HTTPRouteSpec = HTTPRouteSpec(path: string, rateLimit: Option<RateLimit>)

  /** The rate limit of the first HTTP route with that path. */
  function RateLimitFor(routes: seq<HTTPRouteSpec>, path: string): Option<RateLimit> {
    if routes == [] then None else if routes[0].path == path then routes[0].rateLimit
      else RateLimitFor(routes[1..], path)
  }

  function RateLimitOf(m: HTTPRouteMatch, setting: Option<seq<HTTPRouteSpec>>): Option<RateLimit> {
    if setting.None? then None else RateLimitFor(setting.value, m.path)
  }

  /** The limit is that of the first HTTP route with the path, if there is one, and otherwise there is none. */
  ghost predicate HasRateLimit(setting: Option<seq<HTTPRouteSpec>>, path: string, limit: Option<RateLimit>) {
    if setting.Some? && exists i: nat :: IsFirst(setting.value, i, path)
    then exists i: nat :: IsFirst(setting.value, i, path) && setting.value[i].rateLimit == limit
    else limit.None?
  }

  predicate IsFirst(routes: seq<HTTPRouteSpec>, i: nat, path: string) {
    i < |routes| && routes[i].path == path && forall k :: 0 <= k < i ==> routes[k].path != path
  }

  lemma {:induction false} FirstRateLimit(routes: seq<HTTPRouteSpec>, path: string)
    ensures forall i: nat :: IsFirst(routes, i, path) ==> RateLimitFor(routes, path) == routes[i].rateLimit
    ensures (forall i: nat :: !IsFirst(routes, i, path)) ==> RateLimitFor(routes, path).None?
  {
    if routes != [] && routes[0].path != path {
      var rest := routes[1..];
      FirstRateLimit(rest, path);
      forall i: nat | IsFirst(routes, i, path)
        ensures IsFirst(rest, i - 1, path)
      {
        assert forall k :: 0 <= k < i - 1 ==> rest[k] == routes[k + 1];
      }
      forall i: nat | IsFirst(rest, i, path)
        ensures IsFirst(routes, i + 1, path)
      {
        assert forall k :: 0 < k < i + 1 ==> routes[k] == rest[k - 1];
      }
    } else if routes != [] {
      assert IsFirst(routes, 0, path);
    }
  }

  lemma RateLimitIff(m: HTTPRouteMatch, setting: Option<seq<HTTPRouteSpec>>, limit: Option<RateLimit>)
    ensures RateLimitOf(m, setting) == limit <==> HasRateLimit(setting, m.path, limit)
  {
    if setting.Some? {
      FirstRateLimit(setting.value, m.path);
    }
  }

  /** `setting` is the list of HTTP routes of the UpstreamTrafficSetting, if there is one. */
  function RouteFor(m: HTTPRouteMatch, cluster: WeightedCluster, setting: Option<seq<HTTPRouteSpec>>): Route {
    Route(m, {cluster}, RateLimitOf(m, setting))
  }

  method NewRouteWeightedCluster(m: HTTPRouteMatch, clusters: seq<WeightedCluster>, setting: Option<seq<HTTPRouteSpec>>)
    returns (route: Route)
    ensures route == Route(m, Elements(clusters), RateLimitOf(m, setting))
    ensures HasRateLimit(setting, m.path, route.rateLimit)
  {
    var weighted := {};
    for i := 0 to |clusters|
      invariant weighted == Elements(clusters[..i])
    {
      assert clusters[..i + 1] == clusters[..i] + [clusters[i]];
      weighted := weighted + {clusters[i]};
    }
    assert clusters[..|clusters|] == clusters;
    route := Route(m, weighted, None);
    if setting.Some? {
      var i := 0;
      while i < |setting.value| && setting.value[i].path != m.path
        invariant i <= |setting.value|
        invariant RateLimitFor(setting.value, m.path) == RateLimitFor(setting.value[i..], m.path)
      {
        i := i + 1;
      }
      if i < |setting.value| {
        route := route.(rateLimit := setting.value[i].rateLimit);
      }
    }
    RateLimitIff(m, setting, route.rateLimit);
  }

  class Rule {
    const route: Route
    var principals: set<string>

    constructor (route: Route, principals: set<string>)
      ensures this.route == route && this.principals == principals
    {
      this.route := route;
      this.principals := principals;
    }
  }

  // ---------------------------------------------------------------------------
  // Rules

  /** The (route, principal) pairs that a rule allows. */
  ghost function PermissionsOf(rule: Rule): set<(Route, string)>
    reads rule
  {
    set p | p in rule.principals :: (rule.route, p)
  }

  /** The pairs that a list of rules allows. */
  ghost function Permissions(rules: seq<Rule>): set<(Route, string)>
    reads rules
  {
    if rules == [] then {} else Permissions(rules[..|rules| - 1]) + PermissionsOf(rules[|rules| - 1])
  }

  ghost function Objects(rules: seq<Rule>): set<Rule> {
    set r | r in rules
  }

  ghost predicate Listed(rules: seq<Rule>, all: set<Rule>) {
    forall r <- rules :: r in all
  }

  ghost predicate DistinctRoutes(rules: seq<Rule>) {
    forall i, j :: 0 <= i < j < |rules| ==> rules[i].route != rules[j].route
  }

  /** The first rule for a route. */
  ghost function FirstRule(rules: seq<Rule>, route: Route): (first: Option<Rule>)
    ensures first.Some? ==> first.value in rules && first.value.route == route
  {
    if rules == [] then None
    else
      var last, first := rules[|rules| - 1], FirstRule(rules[..|rules| - 1], route);
      if first.Some? then first else if last.route == route then Some(last) else None
  }

  lemma {:induction false} NoFirstRule(rules: seq<Rule>, route: Route)
    requires FirstRule(rules, route).None?
    ensures forall r <- rules :: r.route != route
  {
    if rules != [] {
      NoFirstRule(rules[..|rules| - 1], route);
    }
  }

  lemma FirstRuleAppend(rules: seq<Rule>, rule: Rule, route: Route)
    ensures FirstRule(rules + [rule], route) ==
            if FirstRule(rules, route).Some? then FirstRule(rules, route)
            else if rule.route == route then Some(rule) else None
  {
    assert (rules + [rule])[..|rules|] == rules;
  }

  lemma {:induction false} FirstRulePrefix(rules: seq<Rule>, n: nat, route: Route)
    requires n <= |rules| && FirstRule(rules[..n], route).Some?
    ensures FirstRule(rules, route) == FirstRule(rules[..n], route)
  {
    if n < |rules| {
      assert rules[..|rules| - 1][..n] == rules[..n];
      FirstRulePrefix(rules[..|rules| - 1], n, route);
    } else {
      assert rules[..n] == rules;
    }
  }

  /** The position of the first rule for a route, or the length. */
  method FindRule(rules: seq<Rule>, route: Route) returns (i: nat)
    ensures i <= |rules|
    ensures FirstRule(rules, route) == if i < |rules| then Some(rules[i]) else None
  {
    i := 0;
    while i < |rules| && rules[i].route != route
      invariant i <= |rules| && FirstRule(rules[..i], route).None?
    {
      assert rules[..i + 1] == rules[..i] + [rules[i]];
      FirstRuleAppend(rules[..i], rules[i], route);
      i := i + 1;
    }
    if i < |rules| {
      assert rules[..i + 1] == rules[..i] + [rules[i]];
      FirstRuleAppend(rules[..i], rules[i], route);
      FirstRulePrefix(rules, i + 1, route);
    } else {
      assert rules[..i] == rules;
    }
  }

  // ---------------------------------------------------------------------------
  // Snapshots

  /** What each rule allows at some moment. */
  type Snapshot = map<Rule, set<(Route, string)>>

  ghost function Current(rules: set<Rule>): Snapshot
    reads rules
  {
    map r | r in rules :: PermissionsOf(r)
  }

  ghost function Recorded(snapshot: Snapshot, rules: seq<Rule>): set<(Route, string)>
    requires Listed(rules, snapshot.Keys)
  {
    if rules == [] then {} else Recorded(snapshot, rules[..|rules| - 1]) + snapshot[rules[|rules| - 1]]
  }

  lemma {:induction false} RecordedNow(all: set<Rule>, rules: seq<Rule>)
    requires Listed(rules, all)
    ensures Recorded(Current(all), rules) == Permissions(rules)
  {
    if rules != [] {
      RecordedNow(all, rules[..|rules| - 1]);
    }
  }

  lemma {:induction false} RecordedHas(snapshot: Snapshot, rules: seq<Rule>, rule: Rule)
    requires Listed(rules, snapshot.Keys) && rule in rules
    ensures snapshot[rule] <= Recorded(snapshot, rules)
  {
    if rule != rules[|rules| - 1] {
      RecordedHas(snapshot, rules[..|rules| - 1], rule);
    }
  }

  lemma {:induction false} RecordedWithin(snapshot: Snapshot, rules: seq<Rule>, allowed: set<(Route, string)>)
    requires Listed(rules, snapshot.Keys) && forall r <- rules :: snapshot[r] <= allowed
    ensures Recorded(snapshot, rules) <= allowed
  {
    if rules != [] {
      RecordedWithin(snapshot, rules[..|rules| - 1], allowed);
    }
  }

  /** A rule allows pairs of its own route only. */
  ghost predicate Coherent(snapshot: Snapshot) {
    forall r <- snapshot, x <- snapshot[r] :: x.0 == r.route
  }

  function OfRoute(pairs: set<(Route, string)>, route: Route): set<(Route, string)> {
    set x | x in pairs && x.0 == route
  }

  // ---------------------------------------------------------------------------
  // Merging rules

  /** The list after merging the first `n` of the latest rules: a rule is appended if no rule has its route. */
  ghost function MergedRules(original: seq<Rule>, latest: seq<Rule>, n: nat): (merged: seq<Rule>)
    requires n <= |latest|
    ensures original <= merged
  {
    if n == 0 then original
    else
      var merged, l := MergedRules(original, latest, n - 1), latest[n - 1];
      if FirstRule(merged, l.route).Some? then merged else merged + [l]
  }

  lemma {:induction false} MergedRulesListed(original: seq<Rule>, latest: seq<Rule>, n: nat, all: set<Rule>)
    requires n <= |latest| && Listed(original, all) && Listed(latest, all)
    ensures Listed(MergedRules(original, latest, n), all)
  {
    if n > 0 {
      MergedRulesListed(original, latest, n - 1, all);
    }
  }

  // ---------------------------------------------------------------------------
  // What a merge does

  /** The first rule for a route among the original and the first `n` of the latest rules. */
  ghost function FirstOf(original: seq<Rule>, latest: seq<Rule>, n: nat, route: Route): Option<Rule>
    requires n <= |latest|
  {
    if n == 0 then FirstRule(original, route)
    else
      var first := FirstOf(original, latest, n - 1, route);
      if first.Some? then first else if latest[n - 1].route == route then Some(latest[n - 1]) else None
  }

  /** What the first `n` rules allow. */
  ghost function RecordedTo(snapshot: Snapshot, rules: seq<Rule>, n: nat): set<(Route, string)>
    requires Listed(rules, snapshot.Keys) && n <= |rules|
  {
    if n == 0 then {} else RecordedTo(snapshot, rules, n - 1) + snapshot[rules[n - 1]]
  }

  lemma {:induction false} RecordedToAll(snapshot: Snapshot, rules: seq<Rule>, n: nat)
    requires Listed(rules, snapshot.Keys) && n <= |rules|
    ensures RecordedTo(snapshot, rules, n) == Recorded(snapshot, rules[..n])
  {
    if n > 0 {
      RecordedToAll(snapshot, rules, n - 1);
      assert rules[..n][..n - 1] == rules[..n - 1];
    }
  }

  lemma {:induction false} MergedRulesFirst(original: seq<Rule>, latest: seq<Rule>, n: nat, route: Route)
    requires n <= |latest|
    ensures FirstRule(MergedRules(original, latest, n), route) == FirstOf(original, latest, n, route)
  {
    if n > 0 {
      MergedRulesFirst(original, latest, n - 1, route);
      FirstRuleAppend(MergedRules(original, latest, n - 1), latest[n - 1], route);
    }
  }

  lemma {:induction false} FirstOfNone(original: seq<Rule>, latest: seq<Rule>, n: nat, route: Route, was: Snapshot)
    requires n <= |latest| && FirstOf(original, latest, n, route).None? && Coherent(was) && Listed(latest, was.Keys)
    ensures OfRoute(RecordedTo(was, latest, n), route) == {}
  {
    if n > 0 {
      FirstOfNone(original, latest, n - 1, route, was);
    }
  }

  lemma {:induction false} MergedRulesDistinct(original: seq<Rule>, latest: seq<Rule>, n: nat)
    requires n <= |latest| && DistinctRoutes(original)
    ensures DistinctRoutes(MergedRules(original, latest, n))
  {
    if n > 0 {
      MergedRulesDistinct(original, latest, n - 1);
      var merged, l := MergedRules(original, latest, n - 1), latest[n - 1];
      if FirstRule(merged, l.route).None? {
        NoFirstRule(merged, l.route);
      }
    }
  }

  /** What a rule gains: the first rule for a route gets the pairs of that route, and no other rule gets any. */
  ghost function GainedTo(was: Snapshot, original: seq<Rule>, latest: seq<Rule>, n: nat, r: Rule): set<(Route, string)>
    requires Listed(latest, was.Keys) && n <= |latest|
  {
    if FirstOf(original, latest, n, r.route) == Some(r) then OfRoute(RecordedTo(was, latest, n), r.route) else {}
  }

  /** One step gives the first rule for the route what the merged rule allows. */
  lemma GainedStep(was: Snapshot, original: seq<Rule>, latest: seq<Rule>, n: nat, r: Rule)
    requires Coherent(was) && 0 < n <= |latest| && Listed(latest, was.Keys) && r in was
    ensures var l := latest[n - 1];
            was[r] + GainedTo(was, original, latest, n, r) ==
            was[r] + GainedTo(was, original, latest, n - 1, r) +
              if FirstOf(original, latest, n - 1, l.route) == Some(r) then was[l] else {}
  {
    var l, before := latest[n - 1], RecordedTo(was, latest, n - 1);
    if r.route == l.route {
      assert OfRoute(before + was[l], r.route) == OfRoute(before, r.route) + was[l];
      if FirstOf(original, latest, n - 1, r.route).None? {
        FirstOfNone(original, latest, n - 1, r.route, was);
      }
    } else {
      assert OfRoute(before + was[l], r.route) == OfRoute(before, r.route);
      FirstOfRoute(original, latest, n - 1, l.route);
    }
  }

  lemma {:induction false} FirstOfRoute(original: seq<Rule>, latest: seq<Rule>, n: nat, route: Route)
    requires n <= |latest|
    ensures var first := FirstOf(original, latest, n, route); first.Some? ==> first.value.route == route
  {
    if n > 0 {
      FirstOfRoute(original, latest, n - 1, route);
    }
  }

  /** Each rule allows what it did and what it gains from the first `n` of the latest rules. */
  ghost predicate IsMerged(was: Snapshot, now: Snapshot, original: seq<Rule>, latest: seq<Rule>, n: nat)
    requires n <= |latest| && Listed(latest, was.Keys)
  {
    now.Keys == was.Keys && forall r <- was :: now[r] == was[r] + GainedTo(was, original, latest, n, r)
  }

  lemma MergedStepAt(was: Snapshot, nowR: set<(Route, string)>, nowL: set<(Route, string)>, original: seq<Rule>,
                     latest: seq<Rule>, n: nat, r: Rule)
    requires Coherent(was) && 0 < n <= |latest| && Listed(latest, was.Keys) && r in was
    requires nowR == was[r] + GainedTo(was, original, latest, n - 1, r)
    requires nowL == was[latest[n - 1]] + GainedTo(was, original, latest, n - 1, latest[n - 1])
    ensures nowR + (if FirstOf(original, latest, n - 1, latest[n - 1].route) == Some(r) then nowL else {})
         == was[r] + GainedTo(was, original, latest, n, r)
  {
    GainedStep(was, original, latest, n, r);
    FirstOfRoute(original, latest, n - 1, latest[n - 1].route);
  }

  lemma MergedStep(was: Snapshot, now: Snapshot, next: Snapshot, original: seq<Rule>, latest: seq<Rule>, n: nat)
    requires Coherent(was) && 0 < n <= |latest| && Listed(latest, was.Keys)
    requires IsMerged(was, now, original, latest, n - 1)
    requires next.Keys == was.Keys
    requires forall r <- was ::
               next[r] == now[r] + if FirstOf(original, latest, n - 1,
                 latest[n - 1].route) == Some(r) then now[latest[n - 1]] else {}
    ensures IsMerged(was, next, original, latest, n)
  {
    forall r <- was
      ensures next[r] == was[r] + GainedTo(was, original, latest, n, r)
    {
      MergedStepAt(was, now[r], now[latest[n - 1]], original, latest, n, r);
    }
  }

  ghost predicate ShowsRules(v: Snapshot)
    reads v.Keys
  {
    forall r <- v :: v[r] == PermissionsOf(r)
  }

  /** Merges one rule into the first rule for its route, if there is one. */
  method MergeRule(rules: seq<Rule>, latest: Rule, ghost v: Snapshot) returns (merged: seq<Rule>, ghost w: Snapshot)
    requires ShowsRules(v) && Listed(rules, v.Keys) && latest in v
    modifies v.Keys
    ensures merged == if FirstRule(rules, latest.route).Some? then rules else rules + [latest]
    ensures w.Keys == v.Keys && ShowsRules(w)
    ensures forall r <- v :: w[r] == v[r] + if FirstRule(rules, latest.route) == Some(r) then v[latest] else {}
  {
    var k := FindRule(rules, latest.route);
    if k < |rules| {
      rules[k].principals := rules[k].principals + latest.principals;
      merged, w := rules, v[rules[k] := v[rules[k]] + v[latest]];
      assert PermissionsOf(rules[k]) == old(PermissionsOf(rules[k]) + PermissionsOf(latest));
    } else {
      merged, w := rules + [latest], v;
    }
  }

  lemma ShowsCoherent(v: Snapshot)
    requires ShowsRules(v)
    ensures Coherent(v)
  {
  }

  lemma MergedStart(was: Snapshot, original: seq<Rule>, latest: seq<Rule>)
    requires Listed(latest, was.Keys)
    ensures IsMerged(was, was, original, latest, 0)
  {
  }

  /** One round of the merge. */
  method MergeNext(original: seq<Rule>, latest: seq<Rule>, i: nat, rules: seq<Rule>, ghost was: Snapshot,
                   ghost v: Snapshot)
    returns (merged: seq<Rule>, ghost w: Snapshot)
    requires Coherent(was) && Listed(original, was.Keys) && Listed(latest, was.Keys) && i < |latest|
    requires ShowsRules(v) && rules == MergedRules(original, latest, i) && IsMerged(was, v, original, latest, i)
    modifies v.Keys
    ensures w.Keys == v.Keys && ShowsRules(w)
    ensures merged == MergedRules(original, latest, i + 1) && IsMerged(was, w, original, latest, i + 1)
  {
    MergedRulesListed(original, latest, i, was.Keys);
    MergedRulesFirst(original, latest, i, latest[i].route);
    merged, w := MergeRule(rules, latest[i], v);
    MergedStep(was, v, w, original, latest, i + 1);
  }

  /** Merges the rules, compared with a snapshot at the start. */
  method MergeEach(original: seq<Rule>, latest: seq<Rule>, ghost was: Snapshot)
    returns (merged: seq<Rule>, ghost now: Snapshot)
    requires ShowsRules(was) && Listed(original, was.Keys) && Listed(latest, was.Keys)
    modifies was.Keys
    ensures merged == MergedRules(original, latest, |latest|)
    ensures now.Keys == was.Keys && ShowsRules(now) && IsMerged(was, now, original, latest, |latest|)
  {
    merged, now := original, was;
    ShowsCoherent(was);
    MergedStart(was, original, latest);
    for i := 0 to |latest|
      invariant merged == MergedRules(original, latest, i)
      invariant now.Keys == was.Keys && ShowsRules(now) && IsMerged(was, now, original, latest, i)
    {
      merged, now := MergeNext(original, latest, i, merged, was, now);
    }
  }

  /** What the merged rules allow, compared with a snapshot at the start. */
  ghost predicate IsJoined(was: Snapshot, now: Snapshot, original: seq<Rule>, latest: seq<Rule>)
    requires Listed(latest, was.Keys)
  {
    IsMerged(was, now, original, latest, |latest|)
  }

  lemma AllRecorded(was: Snapshot, latest: seq<Rule>)
    requires Listed(latest, was.Keys)
    ensures RecordedTo(was, latest, |latest|) == Recorded(was, latest)
  {
    RecordedToAll(was, latest, |latest|);
    assert latest[..|latest|] == latest;
  }

  lemma GainedIsRecorded(was: Snapshot, original: seq<Rule>, latest: seq<Rule>, r: Rule)
    requires Listed(latest, was.Keys)
    ensures GainedTo(was, original, latest, |latest|, r) ==
            if FirstOf(original, latest, |latest|, r.route) == Some(r) then OfRoute(Recorded(was, latest), r.route)
              else {}
  {
    AllRecorded(was, latest);
  }

  /** Nothing but the pairs of both lists. */
  lemma MergedWithin(was: Snapshot, now: Snapshot, original: seq<Rule>, latest: seq<Rule>)
    requires Listed(original, was.Keys) && Listed(latest, was.Keys) && IsJoined(was, now, original, latest)
    requires Listed(MergedRules(original, latest, |latest|), now.Keys)
    ensures Recorded(now, MergedRules(original, latest, |latest|)) <= Recorded(was, original) + Recorded(was, latest)
  {
    var both := Objects(original) + Objects(latest);
    MergedRulesListed(original, latest, |latest|, both);
    forall r <- MergedRules(original, latest, |latest|)
      ensures now[r] <= Recorded(was, original) + Recorded(was, latest)
    {
      GainedIsRecorded(was, original, latest, r);
      if r in original {
        RecordedHas(was, original, r);
      } else {
        assert r in both;
        RecordedHas(was, latest, r);
      }
    }
    RecordedWithin(now, MergedRules(original, latest, |latest|), Recorded(was, original) + Recorded(was, latest));
  }

  lemma OriginalIsMerged(was: Snapshot, now: Snapshot, original: seq<Rule>, latest: seq<Rule>)
    requires Listed(original, was.Keys) && Listed(latest, was.Keys) && IsJoined(was, now, original, latest)
    requires Listed(MergedRules(original, latest, |latest|), now.Keys)
    ensures Recorded(was, original) <= Recorded(now, MergedRules(original, latest, |latest|))
  {
    var merged := MergedRules(original, latest, |latest|);
    forall r <- original
      ensures was[r] <= Recorded(now, merged)
    {
      assert r in merged;
      RecordedHas(now, merged, r);
    }
    RecordedWithin(was, original, Recorded(now, merged));
  }

  lemma LatestIsMerged(was: Snapshot, now: Snapshot, original: seq<Rule>, latest: seq<Rule>, x: (Route, string))
    requires Coherent(was) && Listed(original, was.Keys) && Listed(latest, was.Keys)
    requires IsJoined(was, now, original, latest)
    requires Listed(MergedRules(original, latest, |latest|), now.Keys) && x in Recorded(was, latest)
    ensures x in Recorded(now, MergedRules(original, latest, |latest|))
  {
    var merged := MergedRules(original, latest, |latest|);
    MergedRulesFirst(original, latest, |latest|, x.0);
    FirstOfRecorded(was, original, latest, x);
    var first := FirstRule(merged, x.0).value;
    GainedIsRecorded(was, original, latest, first);
    RecordedHas(now, merged, first);
  }

  lemma FirstOfRecorded(was: Snapshot, original: seq<Rule>, latest: seq<Rule>, x: (Route, string))
    requires Coherent(was) && Listed(latest, was.Keys) && x in Recorded(was, latest)
    ensures FirstOf(original, latest, |latest|, x.0).Some?
  {
    AllRecorded(was, latest);
    assert x in OfRoute(RecordedTo(was, latest, |latest|), x.0);
    if FirstOf(original, latest, |latest|, x.0).None? {
      FirstOfNone(original, latest, |latest|, x.0, was);
    }
  }

  /** The union of the pairs of both lists. */
  lemma MergedUnion(was: Snapshot, now: Snapshot, original: seq<Rule>, latest: seq<Rule>)
    requires Coherent(was) && Listed(original, was.Keys) && Listed(latest, was.Keys)
    requires IsJoined(was, now, original, latest)
    ensures Listed(MergedRules(original, latest, |latest|), now.Keys)
    ensures Recorded(now, MergedRules(original, latest, |latest|)) == Recorded(was, original) + Recorded(was, latest)
  {
    MergedRulesListed(original, latest, |latest|, now.Keys);
    MergedWithin(was, now, original, latest);
    OriginalIsMerged(was, now, original, latest);
    forall x <- Recorded(was, latest) { LatestIsMerged(was, now, original, latest, x); }
  }

  lemma RecordedShown(v: Snapshot, rules: seq<Rule>)
    requires ShowsRules(v) && Listed(rules, v.Keys)
    ensures Recorded(v, rules) == Permissions(rules)
  {
    assert v == Current(v.Keys);
    RecordedNow(v.Keys, rules);
  }

  /** The merged rules allow exactly what the two lists allowed. Of the rule objects, shared or not, the first for each
      route gains what the latest rules allow for that route, and the others stay as they are. */
  method MergeRules(original: seq<Rule>, latest: seq<Rule>) returns (merged: seq<Rule>)
    modifies Objects(original) + Objects(latest)
    ensures merged == MergedRules(original, latest, |latest|)
    ensures Permissions(merged) == old(Permissions(original) + Permissions(latest))
    ensures forall r <- Objects(original) + Objects(latest) ::
              PermissionsOf(r) == old(PermissionsOf(r)) +
                if FirstOf(original, latest, |latest|, r.route) == Some(r) then OfRoute(old(Permissions(latest)),
                  r.route) else {}
    ensures DistinctRoutes(original) ==> DistinctRoutes(merged)
  {
    ghost var was := Current(Objects(original) + Objects(latest));
    RecordedShown(was, original);
    RecordedShown(was, latest);
    ghost var now;
    merged, now := JoinRules(original, latest, was);
    RecordedShown(now, merged);
    forall r <- was { GainedIsRecorded(was, original, latest, r); }
  }

  /** The merge, compared with a snapshot of any rules at the start. */
  method JoinRules(original: seq<Rule>, latest: seq<Rule>, ghost was: Snapshot)
    returns (merged: seq<Rule>, ghost now: Snapshot)
    requires ShowsRules(was) && Listed(original, was.Keys) && Listed(latest, was.Keys)
    modifies was.Keys
    ensures merged == MergedRules(original, latest, |latest|) && (DistinctRoutes(original) ==> DistinctRoutes(merged))
    ensures now.Keys == was.Keys && ShowsRules(now) && IsJoined(was, now, original, latest)
    ensures Listed(merged, now.Keys) && Recorded(now, merged) == Recorded(was, original) + Recorded(was, latest)
  {
    ShowsCoherent(was);
    merged, now := MergeEach(original, latest, was);
    MergedUnion(was, now, original, latest);
    if DistinctRoutes(original) {
      MergedRulesDistinct(original, latest, |latest|);
    }
  }

  // ---------------------------------------------------------------------------
  // Merging again changes nothing

  lemma {:induction false} FirstOfPresent(original: seq<Rule>, latest: seq<Rule>, n: nat, route: Route)
    requires n <= |latest| && FirstRule(original, route).Some?
    ensures FirstOf(original, latest, n, route) == FirstRule(original, route)
  {
    if n > 0 {
      FirstOfPresent(original, latest, n - 1, route);
    }
  }

  lemma {:induction false} FirstOfAbsent(a: seq<Rule>, b: seq<Rule>, latest: seq<Rule>, n: nat, route: Route)
    requires n <= |latest| && FirstOf(a, latest, n, route).None? && FirstRule(b, route).None?
    ensures FirstOf(b, latest, n, route).None?
  {
    if n > 0 {
      FirstOfAbsent(a, b, latest, n - 1, route);
    }
  }

  lemma {:induction false} FirstOfMember(original: seq<Rule>, latest: seq<Rule>, n: nat, j: nat)
    requires j < n <= |latest|
    ensures FirstOf(original, latest, n, latest[j].route).Some?
  {
    if j < n - 1 {
      FirstOfMember(original, latest, n - 1, j);
    }
  }

  lemma {:induction false} NothingToMerge(original: seq<Rule>, latest: seq<Rule>, n: nat)
    requires n <= |latest| && forall j :: 0 <= j < |latest| ==> FirstRule(original, latest[j].route).Some?
    ensures MergedRules(original, latest, n) == original
  {
    if n > 0 {
      NothingToMerge(original, latest, n - 1);
    }
  }

  lemma MergedAgain(original: seq<Rule>, latest: seq<Rule>)
    ensures var merged := MergedRules(original, latest, |latest|); MergedRules(merged, latest, |latest|) == merged
  {
    var merged := MergedRules(original, latest, |latest|);
    forall j | 0 <= j < |latest|
      ensures FirstRule(merged, latest[j].route).Some?
    {
      FirstOfMember(original, latest, |latest|, j);
      MergedRulesFirst(original, latest, |latest|, latest[j].route);
    }
    NothingToMerge(merged, latest, |latest|);
  }

  lemma MergedWithItself(rules: seq<Rule>)
    ensures MergedRules(rules, rules, |rules|) == rules
  {
    forall j | 0 <= j < |rules|
      ensures FirstRule(rules, rules[j].route).Some?
    {
      if FirstRule(rules, rules[j].route).None? {
        NoFirstRule(rules, rules[j].route);
      }
    }
    NothingToMerge(rules, rules, |rules|);
  }

  lemma FirstOfMergedAgain(original: seq<Rule>, latest: seq<Rule>, route: Route)
    ensures FirstOf(MergedRules(original, latest, |latest|), latest, |latest|, route) ==
            FirstOf(original, latest, |latest|, route)
  {
    var merged := MergedRules(original, latest, |latest|);
    MergedRulesFirst(original, latest, |latest|, route);
    if FirstRule(merged, route).Some? {
      FirstOfPresent(merged, latest, |latest|, route);
    } else {
      FirstOfAbsent(original, merged, latest, |latest|, route);
    }
  }
}
