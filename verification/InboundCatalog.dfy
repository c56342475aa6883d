/** Compiling TrafficTargets and HTTPRouteGroups into the inbound policy of an upstream service. */
module InboundCatalog {
  import opened Collections
  import opened Identity
  import opened InboundPolicies
  import opened Issuance
  import opened Principals
  import opened RouteGroups
  import opened Smi
  import opened TrafficPolicy
  import opened Wrappers

  /** What the compiler knows besides the TrafficTargets: the route groups, the issuers, the service's local cluster and
      its UpstreamTrafficSetting. */
  datatype Context = Context(
    groups: seq<HTTPRouteGroup>, info: IssuerInfo, cluster: WeightedCluster, setting: Option<seq<HTTPRouteSpec>>)

  function Accounts(subjects: seq<Subject>): (accounts: seq<K8sServiceAccount>)
    ensures |accounts| == |subjects|
  {
    seq(|subjects|, i requires 0 <= i < |subjects| => subjects[i].Account())
  }

  // ---------------------------------------------------------------------------
  // Meaning

  /** The pairs of the first `n` route matches with the allowed principals. */
  function RoutePermissions(matches: seq<HTTPRouteMatch>, n: nat, allowed: set<string>,
                            c: Context): set<(Route, string)>
    requires n <= |matches|
  {
    if n == 0 then {}
    else
      RoutePermissions(matches, n - 1, allowed, c) +
      set p | p in allowed :: (RouteFor(matches[n - 1], c.cluster, c.setting), p)
  }

  /** The (route, principal) pairs that one TrafficTarget allows. */
  function TargetPermissions(t: TrafficTarget, c: Context): set<(Route, string)> {
    var matches := RoutesOf(TableOf(c.groups), t.rules, t.namespace);
    RoutePermissions(matches, |matches|, AllowedPrincipals(Accounts(t.sources), c.info), c)
  }

  lemma {:induction false} RoutePermissionsMembers(matches: seq<HTTPRouteMatch>, n: nat, allowed: set<string>,
                                                   c: Context, route: Route, principal: string)
    requires n <= |matches|
    ensures (route, principal) in RoutePermissions(matches, n, allowed, c) <==>
            principal in allowed && route.routeMatch in matches[..n] &&
              route == RouteFor(route.routeMatch, c.cluster, c.setting)
  {
    if n > 0 {
      RoutePermissionsMembers(matches, n - 1, allowed, c, route, principal);
      assert matches[..n] == matches[..n - 1] + [matches[n - 1]];
    }
  }

  function TargetsPermissions(targets: seq<TrafficTarget>, c: Context): set<(Route, string)> {
    if targets == [] then {}
    else TargetsPermissions(targets[..|targets| - 1], c) + TargetPermissions(targets[|targets| - 1], c)
  }

  /** A source of the TrafficTarget presents this principal under the signing or the validating issuer. */
  predicate HasPrincipal(t: TrafficTarget, info: IssuerInfo, principal: string) {
    exists s <- t.sources ::
      var identity := s.name + "." + s.namespace;
      || principal == PrincipalOf(identity, info.signing.trustDomain, info.signing.spiffeEnabled)
      || principal == PrincipalOf(identity, info.validating.trustDomain, info.validating.spiffeEnabled)
  }

  /** A valid TrafficTarget for the destination has the principal among its sources and names the route. */
  ghost predicate Authorized(targets: seq<TrafficTarget>, destination: K8sServiceAccount, c: Context,
                             route: Route, principal: string) {
    && route.clusters == {c.cluster} && HasRateLimit(c.setting, route.routeMatch.path, route.rateLimit)
    && exists t <- targets ::
         && IsEffective(t) && IsFor(t, Some(destination))
         && HasPrincipal(t, c.info, principal)
         && Names(c.groups, t.rules, t.namespace, route.routeMatch)
  }

  lemma HasPrincipalIff(t: TrafficTarget, info: IssuerInfo, principal: string)
    ensures HasPrincipal(t, info, principal) <==> principal in AllowedPrincipals(Accounts(t.sources), info)
  {
    var accounts := Accounts(t.sources);
    AllowedPrincipalIff(accounts, info, principal);
    assert forall i :: 0 <= i < |accounts| ==> accounts[i] == t.sources[i].Account() && accounts[i] in accounts;
  }

  lemma TargetPermissionsIff(t: TrafficTarget, c: Context, route: Route, principal: string)
    requires SlashFree(c.groups) && '/' !in t.namespace
    ensures (route, principal) in TargetPermissions(t, c) <==>
            && route.clusters == {c.cluster} && HasRateLimit(c.setting, route.routeMatch.path, route.rateLimit)
            && HasPrincipal(t, c.info, principal)
            && Names(c.groups, t.rules, t.namespace, route.routeMatch)
  {
    RateLimitIff(route.routeMatch, c.setting, route.rateLimit);
    HasPrincipalIff(t, c.info, principal);
    RoutesAreNamed(c.groups, t.rules, t.namespace, route.routeMatch);
    var matches := RoutesOf(TableOf(c.groups), t.rules, t.namespace);
    RoutePermissionsMembers(matches, |matches|, AllowedPrincipals(Accounts(t.sources), c.info), c, route, principal);
    assert matches[..|matches|] == matches;
  }

  lemma {:induction false} TargetsPermissionsMembers(targets: seq<TrafficTarget>, c: Context, x: (Route, string))
    ensures x in TargetsPermissions(targets, c) <==> exists t <- targets :: x in TargetPermissions(t, c)
  {
    if targets != [] {
      var rest, last := targets[..|targets| - 1], targets[|targets| - 1];
      TargetsPermissionsMembers(rest, c, x);
      assert forall t :: t in targets <==> t in rest || t == last;
    }
  }

  /** The compiled permissions are exactly the authorized pairs. */
  lemma CompilationIsExact(targets: seq<TrafficTarget>, destination: K8sServiceAccount, c: Context, route: Route,
                           principal: string)
    requires SlashFree(c.groups) && forall t <- targets :: '/' !in t.namespace
    ensures (route, principal) in TargetsPermissions(Selected(targets, Some(destination)), c) <==>
            Authorized(targets, destination, c, route, principal)
  {
    var listed := Selected(targets, Some(destination));
    TargetsPermissionsMembers(listed, c, (route, principal));
    forall t { SelectedMembers(targets, Some(destination), t); }
    forall t <- targets { TargetPermissionsIff(t, c, route, principal); }
  }

  // ---------------------------------------------------------------------------
  // Compilation

  method AllowedDownstreamPrincipals(sources: seq<Subject>, info: IssuerInfo) returns (allowed: set<string>)
    ensures allowed == AllowedPrincipals(Accounts(sources), info)
  {
    allowed := {};
    for i := 0 to |sources|
      invariant allowed == AllowedPrincipals(Accounts(sources[..i]), info)
    {
      var account := sources[i].Account();
      assert Accounts(sources[..i + 1]) == Accounts(sources[..i]) + [account];
      allowed := allowed + {account.AsPrincipal(info.signing.trustDomain, info.signing.spiffeEnabled)};
      if info.AreDifferent() {
        allowed := allowed + {account.AsPrincipal(info.validating.trustDomain, info.validating.spiffeEnabled)};
      }
    }
    assert sources[..|sources|] == sources;
  }

  /** A rule that allows these principals the route, and nothing else. */
  method NewRule(m: HTTPRouteMatch, allowed: set<string>, c: Context) returns (rule: Rule)
    ensures fresh(rule) && PermissionsOf(rule) == set p | p in allowed :: (RouteFor(m, c.cluster, c.setting), p)
  {
    var route := NewRouteWeightedCluster(m, [c.cluster], c.setting);
    assert Elements([c.cluster]) == {c.cluster};
    rule := new Rule(route, allowed);
  }

  method GetRoutingRulesFromTrafficTarget(t: TrafficTarget, c: Context) returns (rules: seq<Rule>)
    ensures fresh(Objects(rules)) && Permissions(rules) == TargetPermissions(t, c)
  {
    var matches := RoutesFromRules(c.groups, t.rules, t.namespace);
    var allowed := AllowedDownstreamPrincipals(t.sources, c.info);
    rules := NewRules(matches, allowed, c);
  }

  /** One rule for each route match. */
  method NewRules(matches: seq<HTTPRouteMatch>, allowed: set<string>, c: Context) returns (rules: seq<Rule>)
    ensures fresh(Objects(rules)) && Permissions(rules) == RoutePermissions(matches, |matches|, allowed, c)
  {
    rules := [];
    for i := 0 to |matches|
      invariant fresh(Objects(rules)) && Permissions(rules) == RoutePermissions(matches, i, allowed, c)
    {
      var rule := NewRule(matches[i], allowed, c);
      assert (rules + [rule])[..|rules|] == rules && Objects(rules + [rule]) == Objects(rules) + {rule};
      rules := rules + [rule];
    }
  }

  /** The routing rules of all the listed TrafficTargets, merged. */
  method MergeTrafficTargets(targets: seq<TrafficTarget>, c: Context) returns (rules: seq<Rule>)
    ensures fresh(Objects(rules)) && DistinctRoutes(rules) && Permissions(rules) == TargetsPermissions(targets, c)
  {
    rules := [];
    for i := 0 to |targets|
      invariant fresh(Objects(rules)) && DistinctRoutes(rules)
      invariant Permissions(rules) == TargetsPermissions(targets[..i], c)
    {
      assert targets[..i + 1][..i] == targets[..i];
      var latest := GetRoutingRulesFromTrafficTarget(targets[i], c);
      MergedRulesListed(rules, latest, |latest|, Objects(rules) + Objects(latest));
      rules := MergeRules(rules, latest);
    }
    assert targets[..|targets|] == targets;
  }

  method BuildInboundHTTPPolicyFromTrafficTarget(name: string, hostnames: seq<string>, targets: seq<TrafficTarget>,
                                                 c: Context)
    returns (policy: InboundPolicy)
    ensures fresh(policy) && policy.name == name && policy.hostnames == hostnames
    ensures fresh(Objects(policy.rules)) && DistinctRoutes(policy.rules)
    ensures Permissions(policy.rules) == TargetsPermissions(targets, c)
  {
    policy := new InboundPolicy(name, hostnames);
    var rules := MergeTrafficTargets(targets, c);
    policy.rules := rules;
  }

  const WILDCARD_PRINCIPAL := "*"
  const WILDCARD_ROUTE_MATCH := HTTPRouteMatch(REGEX_MATCH_ALL, PathMatchRegex, [WILDCARD_HTTP_METHOD], None)

  predicate NamespacesAreSlashFree(targets: seq<TrafficTarget>, c: Context) {
    SlashFree(c.groups) && forall t <- targets :: '/' !in t.namespace
  }

  /** The inbound policy of a service with the given identity: in permissive mode everyone may use every route; in SMI
      mode the policy allows exactly what the TrafficTargets authorize, with one rule per route. */
  method GetInboundTrafficPolicyForUpstream(name: string, hostnames: seq<string>, upstream: ServiceIdentity,
                                            permissive: bool, targets: seq<TrafficTarget>, c: Context)
    returns (policy: InboundPolicy)
    requires !permissive ==> '.' in upstream
    ensures fresh(policy) && policy.name == name && policy.hostnames == hostnames && DistinctRoutes(policy.rules)
    ensures permissive ==>
              var any := HTTPRouteMatch(".*", PathMatchRegex, ["*"], None);
              Permissions(policy.rules) == {(RouteFor(any, c.cluster, c.setting), "*")}
    ensures !permissive && NamespacesAreSlashFree(targets, c) ==> forall route, principal ::
              (route, principal) in Permissions(policy.rules) <==>
              Authorized(targets, ToK8sServiceAccount(upstream), c, route, principal)
  {
    if permissive {
      policy := new InboundPolicy(name, hostnames);
      var rule := NewRule(WILDCARD_ROUTE_MATCH, {WILDCARD_PRINCIPAL}, c);
      policy.rules := [rule];
      assert Permissions([rule]) == PermissionsOf(rule);
    } else {
      var destination := ToK8sServiceAccount(upstream);
      var listed := ListTrafficTargetsByOptions(targets, Some(destination));
      policy := BuildInboundHTTPPolicyFromTrafficTarget(name, hostnames, listed, c);
      if NamespacesAreSlashFree(targets, c) {
        forall route, principal { CompilationIsExact(targets, destination, c, route, principal); }
      }
    }
  }
}
