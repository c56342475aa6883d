/** HTTPRouteGroups as a table of route matches, and the routes that a TrafficTarget's rules name. */
module RouteGroups {
  import opened GoStrings
  import opened Smi
  import opened TrafficPolicy
  import opened Wrappers

  const REGEX_MATCH_ALL := ".*"
  const WILDCARD_HTTP_METHOD := "*"

  type RouteTable = map<string, map<string, HTTPRouteMatch>>

  function TrafficSpecName(kind: string, namespace: string, name: string): string {
    kind + "/" + namespace + "/" + name
  }

  function Key(namespace: string, name: string): string {
    TrafficSpecName(HTTP_ROUTE_GROUP_KIND, namespace, name)
  }

  /** Namespaces are free of slashes, and then keys tell groups apart. */
  lemma KeyIsInjective(ns1: string, name1: string, ns2: string, name2: string)
    requires '/' !in ns1 && '/' !in ns2
    ensures Key(ns1, name1) == Key(ns2, name2) <==> ns1 == ns2 && name1 == name2
  {
    if Key(ns1, name1) == Key(ns2, name2) {
      var prefix := HTTP_ROUTE_GROUP_KIND + "/";
      assert Key(ns1, name1) == prefix + (ns1 + ['/'] + name1) && Key(ns2, name2) == prefix + (ns2 + ['/'] + name2);
      assert Key(ns1, name1)[|prefix|..] == ns1 + ['/'] + name1 && Key(ns2, name2)[|prefix|..] == ns2 + ['/'] + name2;
      IndexOfFirst(ns1, '/', name1);
      IndexOfFirst(ns2, '/', name2);
      var rest := ns1 + ['/'] + name1;
      assert rest[..|ns1|] == ns1 && rest[|ns1| + 1..] == name1;
      assert rest[..|ns2|] == ns2 && rest[|ns2| + 1..] == name2;
    }
  }

  /** The route match of a group's match: a missing path or method list stands for any. */
  function Expand(m: HTTPMatch): HTTPRouteMatch {
    HTTPRouteMatch(
      if m.pathRegex == "" then REGEX_MATCH_ALL else m.pathRegex,
      PathMatchRegex,
      if m.methods == [] then [WILDCARD_HTTP_METHOD] else m.methods,
      m.headers)
  }

  // ---------------------------------------------------------------------------
  // The table

  function MatchTable(matches: seq<HTTPMatch>): map<string, HTTPRouteMatch> {
    if matches == [] then map[]
    else var last := matches[|matches| - 1]; MatchTable(matches[..|matches| - 1])[last.name := Expand(last)]
  }

  function TableOf(groups: seq<HTTPRouteGroup>): RouteTable {
    if groups == [] then map[]
    else
      var rest, last := TableOf(groups[..|groups| - 1]), groups[|groups| - 1];
      if last.matches.None? then rest else rest[Key(last.namespace, last.name) := MatchTable(last.matches.value)]
  }

  method FillMatches(matches: seq<HTTPMatch>) returns (table: map<string, HTTPRouteMatch>)
    ensures table == MatchTable(matches)
  {
    table := map[];
    for i := 0 to |matches|
      invariant table == MatchTable(matches[..i])
    {
      var m := matches[i];
      assert matches[..i + 1][..i] == matches[..i];
      var path, methods := m.pathRegex, m.methods;
      if path == "" {
        path := REGEX_MATCH_ALL;
      }
      if |methods| == 0 {
        methods := [WILDCARD_HTTP_METHOD];
      }
      table := table[m.name := HTTPRouteMatch(path, PathMatchRegex, methods, m.headers)];
    }
    assert matches[..|matches|] == matches;
  }

  method GetHTTPPathsPerRoute(groups: seq<HTTPRouteGroup>) returns (table: RouteTable)
    ensures table == TableOf(groups)
  {
    table := map[];
    for i := 0 to |groups|
      invariant table == TableOf(groups[..i])
    {
      var g := groups[i];
      assert groups[..i + 1][..i] == groups[..i];
      if g.matches.Some? {
        var matches := FillMatches(g.matches.value);
        table := table[Key(g.namespace, g.name) := matches];
      }
    }
    assert groups[..|groups|] == groups;
  }

  function Find(table: RouteTable, key: string, name: string): Option<HTTPRouteMatch> {
    if key in table && name in table[key] then Some(table[key][name]) else None
  }

  // ---------------------------------------------------------------------------
  // What the table means

  /** The last match of that name. */
  predicate IsLastMatch(matches: seq<HTTPMatch>, j: nat, name: string) {
    j < |matches| && matches[j].name == name && forall k :: j < k < |matches| ==> matches[k].name != name
  }

  predicate IsGroup(g: HTTPRouteGroup, namespace: string, name: string) {
    g.namespace == namespace && g.name == name && g.matches.Some?
  }

  /** The last group of that namespace and name that has matches. */
  predicate IsLastGroup(groups: seq<HTTPRouteGroup>, i: nat, namespace: string, name: string) {
    i < |groups| && IsGroup(groups[i], namespace, name) && forall k :: i < k < |groups| ==>
      !IsGroup(groups[k], namespace, name)
  }

  /** The route match that a group's match stands for: the same headers, the path as a regular expression, and any path
      or any method where the match names none. */
  predicate StandsFor(m: HTTPMatch, route: HTTPRouteMatch) {
    && route.headers == m.headers && route.pathMatchType == PathMatchRegex
    && (m.pathRegex != "" ==> route.path == m.pathRegex) && (m.pathRegex == "" ==> route.path == ".*")
    && (m.methods != [] ==> route.methods == m.methods) && (m.methods == [] ==> route.methods == ["*"])
  }

  /** The named match of the named HTTPRouteGroup stands for this route match. */
  ghost predicate Declares(groups: seq<HTTPRouteGroup>, namespace: string, group: string, name: string,
                           route: HTTPRouteMatch) {
    exists i: nat, j: nat ::
      && IsLastGroup(groups, i, namespace, group)
      && IsLastMatch(groups[i].matches.value, j, name)
      && StandsFor(groups[i].matches.value[j], route)
  }

  lemma ExpandIff(m: HTTPMatch, route: HTTPRouteMatch)
    ensures Expand(m) == route <==> StandsFor(m, route)
  {
  }

  /** The last match of that name, if there is one. */
  function LastMatch(matches: seq<HTTPMatch>, name: string): (j: Option<nat>)
    ensures j.Some? ==> IsLastMatch(matches, j.value, name)
    ensures j.None? ==> forall k :: 0 <= k < |matches| ==> matches[k].name != name
  {
    if matches == [] then None
    else if matches[|matches| - 1].name == name then Some(|matches| - 1)
    else LastMatch(matches[..|matches| - 1], name)
  }

  lemma {:induction false} MatchTableAt(matches: seq<HTTPMatch>, name: string)
    ensures name in MatchTable(matches) <==> LastMatch(matches, name).Some?
    ensures name in MatchTable(matches) ==> MatchTable(matches)[name] == Expand(matches[LastMatch(matches, name).value])
  {
    if matches != [] {
      MatchTableAt(matches[..|matches| - 1], name);
    }
  }

  predicate SlashFree(groups: seq<HTTPRouteGroup>) {
    forall g <- groups :: '/' !in g.namespace
  }

  /** The last group of that namespace and name, if there is one. */
  function LastGroup(groups: seq<HTTPRouteGroup>, namespace: string, name: string): (i: Option<nat>)
    ensures i.Some? ==> IsLastGroup(groups, i.value, namespace, name)
    ensures i.None? ==> forall k :: 0 <= k < |groups| ==> !IsGroup(groups[k], namespace, name)
  {
    if groups == [] then None
    else if IsGroup(groups[|groups| - 1], namespace, name) then Some(|groups| - 1)
    else LastGroup(groups[..|groups| - 1], namespace, name)
  }

  lemma {:induction false} TableAt(groups: seq<HTTPRouteGroup>, namespace: string, name: string)
    requires SlashFree(groups) && '/' !in namespace
    ensures Key(namespace, name) in TableOf(groups) <==> LastGroup(groups, namespace, name).Some?
    ensures Key(namespace, name) in TableOf(groups) ==>
              var i := LastGroup(groups, namespace, name).value;
              TableOf(groups)[Key(namespace, name)] == MatchTable(groups[i].matches.value)
  {
    if groups != [] {
      var last := groups[|groups| - 1];
      TableAt(groups[..|groups| - 1], namespace, name);
      KeyIsInjective(last.namespace, last.name, namespace, name);
    }
  }

  /** The table holds exactly the declared routes. */
  lemma TableIsExact(groups: seq<HTTPRouteGroup>, namespace: string, group: string, name: string, route: HTTPRouteMatch)
    requires SlashFree(groups) && '/' !in namespace
    ensures Find(TableOf(groups), Key(namespace, group), name) == Some(route) <==>
        Declares(groups, namespace, group, name, route)
  {
    TableAt(groups, namespace, group);
    var i := LastGroup(groups, namespace, group);
    if i.Some? {
      MatchTableAt(groups[i.value].matches.value, name);
      forall m: HTTPMatch { ExpandIff(m, route); }
      assert forall k: nat :: IsLastGroup(groups, k, namespace, group) ==> k == i.value;
    }
  }

  // ---------------------------------------------------------------------------
  // The routes of a TrafficTarget

  function RuleRoutes(table: RouteTable, key: string, matches: seq<string>): seq<HTTPRouteMatch> {
    if matches == [] then []
    else
      var found := Find(table, key, matches[|matches| - 1]);
      RuleRoutes(table, key, matches[..|matches| - 1]) + if found.Some? then [found.value] else []
  }

  function RoutesOf(table: RouteTable, rules: seq<TargetRule>, namespace: string): seq<HTTPRouteMatch> {
    if rules == [] then []
    else
      var last := rules[|rules| - 1];
      RoutesOf(table, rules[..|rules| - 1], namespace) + RuleRoutes(table, Key(namespace, last.name), last.matches)
  }

  method RoutesFromRule(table: RouteTable, key: string, matches: seq<string>, routes: seq<HTTPRouteMatch>)
    returns (more: seq<HTTPRouteMatch>)
    ensures more == routes + RuleRoutes(table, key, matches)
  {
    more := routes;
    for i := 0 to |matches|
      invariant more == routes + RuleRoutes(table, key, matches[..i])
    {
      assert matches[..i + 1][..i] == matches[..i];
      if key in table && matches[i] in table[key] {
        more := more + [table[key][matches[i]]];
      }
    }
    assert matches[..|matches|] == matches;
  }

  method RoutesFromRules(groups: seq<HTTPRouteGroup>, rules: seq<TargetRule>, namespace: string)
    returns (routes: seq<HTTPRouteMatch>)
    ensures routes == RoutesOf(TableOf(groups), rules, namespace)
  {
    var table := GetHTTPPathsPerRoute(groups);
    routes := [];
    if |table| == 0 {
      EmptyTable(rules, namespace);
      return;
    }
    for i := 0 to |rules|
      invariant routes == RoutesOf(table, rules[..i], namespace)
    {
      assert rules[..i + 1][..i] == rules[..i];
      routes := RoutesFromRule(table, Key(namespace, rules[i].name), rules[i].matches, routes);
    }
    assert rules[..|rules|] == rules;
  }

  lemma {:induction false} EmptyRule(key: string, matches: seq<string>)
    ensures RuleRoutes(map[], key, matches) == []
  {
    if matches != [] {
      EmptyRule(key, matches[..|matches| - 1]);
    }
  }

  lemma {:induction false} EmptyTable(rules: seq<TargetRule>, namespace: string)
    ensures RoutesOf(map[], rules, namespace) == []
  {
    if rules != [] {
      EmptyTable(rules[..|rules| - 1], namespace);
      EmptyRule(Key(namespace, rules[|rules| - 1].name), rules[|rules| - 1].matches);
    }
  }

  lemma {:induction false} RuleRoutesMembers(table: RouteTable, key: string, matches: seq<string>,
                                             route: HTTPRouteMatch)
    ensures route in RuleRoutes(table, key, matches) <==> exists m <- matches :: Find(table, key, m) == Some(route)
  {
    if matches != [] {
      var rest, last := matches[..|matches| - 1], matches[|matches| - 1];
      RuleRoutesMembers(table, key, rest, route);
      assert forall m :: m in matches <==> m in rest || m == last;
    }
  }

  lemma {:induction false} RoutesOfMembers(table: RouteTable, rules: seq<TargetRule>, namespace: string,
                                           route: HTTPRouteMatch)
    ensures route in RoutesOf(table, rules, namespace) <==>
            exists r <- rules :: route in RuleRoutes(table, Key(namespace, r.name), r.matches)
  {
    if rules != [] {
      var rest, last := rules[..|rules| - 1], rules[|rules| - 1];
      RoutesOfMembers(table, rest, namespace, route);
      assert forall r :: r in rules <==> r in rest || r == last;
    }
  }

  /** The rules name a match that is declared as this route, in the namespace of the TrafficTarget. */
  ghost predicate Names(groups: seq<HTTPRouteGroup>, rules: seq<TargetRule>, namespace: string, route: HTTPRouteMatch) {
    exists r <- rules, m <- r.matches :: Declares(groups, namespace, r.name, m, route)
  }

  lemma RoutesAreNamed(groups: seq<HTTPRouteGroup>, rules: seq<TargetRule>, namespace: string, route: HTTPRouteMatch)
    requires SlashFree(groups) && '/' !in namespace
    ensures route in RoutesOf(TableOf(groups), rules, namespace) <==> Names(groups, rules, namespace, route)
  {
    var table := TableOf(groups);
    RoutesOfMembers(table, rules, namespace, route);
    forall r <- rules
      ensures route in RuleRoutes(table, Key(namespace, r.name), r.matches) <==>
              exists m <- r.matches :: Declares(groups, namespace, r.name, m, route)
    {
      RuleRoutesMembers(table, Key(namespace, r.name), r.matches, route);
      forall m { TableIsExact(groups, namespace, r.name, m, route); }
    }
  }
}
