/** The SMI resources that grant access, and which TrafficTargets are listed. */
module Smi {
  import opened Identity
  import opened Wrappers

  const SERVICE_ACCOUNT_KIND := "ServiceAccount"
  const HTTP_ROUTE_GROUP_KIND := "HTTPRouteGroup"
  const TCP_ROUTE_KIND := "TCPRoute"

  datatype Subject = Subject(kind: string, name: string, namespace: string) {
    function Account(): K8sServiceAccount {
      K8sServiceAccount(namespace, name)
    }
  }

  datatype TargetRule = TargetRule(kind: string, name: string, matches: seq<string>)

  datatype TrafficTarget = TrafficTarget(
    name: string, namespace: string, destination: Subject, sources: seq<Subject>, rules: seq<TargetRule>)

  datatype HTTPMatch = HTTPMatch(name: string, pathRegex: string, methods: seq<string>, headers: Option<map<string,
                                 string>>)

  /** `matches` is None for a route group without a matches list. */
  datatype HTTPRouteGroup = HTTPRouteGroup(namespace: string, name: string, matches: Option<seq<HTTPMatch>>)

  predicate HasValidRules(rules: seq<TargetRule>) {
    rules != [] && forall r <- rules :: r.kind == HTTP_ROUTE_GROUP_KIND || r.kind == TCP_ROUTE_KIND
  }

  predicate IsValidTrafficTarget(t: TrafficTarget) {
    t.namespace == t.destination.namespace && HasValidRules(t.rules)
  }

  /** Without a destination every TrafficTarget passes, and so it does when the destination has no name. */
  predicate PassesFilter(t: TrafficTarget, destination: Option<K8sServiceAccount>) {
    destination.Some? && destination.value.name != "" ==> t.destination.Account() == destination.value
  }

  // What is listed, in terms of the fields of a TrafficTarget

  /** The TrafficTarget lies in the namespace of its destination and has rules, all of them for HTTP or TCP routes. */
  predicate IsEffective(t: TrafficTarget) {
    && t.namespace == t.destination.namespace && |t.rules| > 0
    && forall i :: 0 <= i < |t.rules| ==> t.rules[i].kind == "HTTPRouteGroup" || t.rules[i].kind == "TCPRoute"
  }

  predicate IsSubject(s: Subject, sa: K8sServiceAccount) {
    s.name == sa.name && s.namespace == sa.namespace
  }

  /** No destination with a name is asked for, or it is the TrafficTarget's. */
  predicate IsFor(t: TrafficTarget, destination: Option<K8sServiceAccount>) {
    destination.None? || destination.value.name == "" || IsSubject(t.destination, destination.value)
  }

  function Selected(targets: seq<TrafficTarget>, destination: Option<K8sServiceAccount>): seq<TrafficTarget> {
    if targets == [] then []
    else
      var last := targets[|targets| - 1];
      Selected(targets[..|targets| - 1], destination) +
      if IsValidTrafficTarget(last) && PassesFilter(last, destination) then [last] else []
  }

  lemma EffectiveIff(t: TrafficTarget)
    ensures IsValidTrafficTarget(t) <==> IsEffective(t)
  {
    if IsEffective(t) {
      forall r <- t.rules
        ensures r.kind == HTTP_ROUTE_GROUP_KIND || r.kind == TCP_ROUTE_KIND
      {
        var i :| 0 <= i < |t.rules| && t.rules[i] == r;
      }
    }
  }

  lemma {:induction false} SelectedMembers(targets: seq<TrafficTarget>, destination: Option<K8sServiceAccount>,
                                           t: TrafficTarget)
    ensures t in Selected(targets, destination) <==>
            t in targets && IsEffective(t) && IsFor(t, destination)
  {
    EffectiveIff(t);
    if targets != [] {
      var rest := targets[..|targets| - 1];
      SelectedMembers(rest, destination, t);
      assert t in targets <==> t in rest || t == targets[|targets| - 1];
    }
  }

  method ListTrafficTargetsByOptions(targets: seq<TrafficTarget>, destination: Option<K8sServiceAccount>)
    returns (listed: seq<TrafficTarget>)
    ensures listed == Selected(targets, destination)
  {
    listed := [];
    for i := 0 to |targets|
      invariant listed == Selected(targets[..i], destination)
    {
      assert targets[..i + 1][..i] == targets[..i];
      if IsValidTrafficTarget(targets[i]) && PassesFilter(targets[i], destination) {
        listed := listed + [targets[i]];
      }
    }
    assert targets[..|targets|] == targets;
  }
}
