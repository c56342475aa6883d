/** Merging inbound policies, which share rule objects. */
module InboundPolicies {
  import opened Wrappers
  import opened Collections
  import opened Hostnames
  import opened TrafficPolicy

  class InboundPolicy {
    const name: string
    var hostnames: seq<string>
    var rules: seq<Rule>

    constructor (name: string, hostnames: seq<string>)
      ensures this.name == name && this.hostnames == hostnames && rules == []
    {
      this.name := name;
      this.hostnames := hostnames;
      rules := [];
    }
  }

  // ---------------------------------------------------------------------------
  // Views

  /** What policies and rules hold at some moment. */
  datatype View = View(
    hosts: map<InboundPolicy, set<string>>, rules: map<InboundPolicy, seq<Rule>>, permissions: Snapshot)

  ghost predicate WellFormed(v: View) {
    && v.hosts.Keys == v.rules.Keys && Coherent(v.permissions)
    && forall p <- v.rules :: Listed(v.rules[p], v.permissions.Keys)
  }

  /** The view is of the present moment. */
  ghost predicate Shows(v: View)
    reads v.hosts.Keys, v.permissions.Keys
  {
    && v.hosts.Keys == v.rules.Keys
    && (forall p <- v.hosts :: v.hosts[p] == Elements(p.hostnames) && v.rules[p] == p.rules)
    && ShowsRules(v.permissions)
  }

  /** The (route, principal) pairs that a policy allows. */
  ghost function Allowed(v: View, p: InboundPolicy): set<(Route, string)>
    requires WellFormed(v) && p in v.rules
  {
    Recorded(v.permissions, v.rules[p])
  }

  ghost predicate SameKeys(v: View, w: View) {
    v.hosts.Keys == w.hosts.Keys && v.rules.Keys == w.rules.Keys && v.permissions.Keys == w.permissions.Keys
  }

  // ---------------------------------------------------------------------------
  // Merging one policy into another

  predicate Comparable(first: set<string>, second: set<string>) {
    (first <= second || second <= first) && first + second != {}
  }

  /** The target has the hosts of both policies and the merged rules; of the rules, only the first for each
      route gain. */
  ghost predicate JoinedView(v: View, w: View, target: InboundPolicy, latest: InboundPolicy)
    requires WellFormed(v) && target in v.rules && latest in v.rules
  {
    && w.hosts == v.hosts[target := v.hosts[target] + v.hosts[latest]]
    && w.rules == v.rules[target := MergedRules(v.rules[target], v.rules[latest], |v.rules[latest]|)]
    && IsJoined(v.permissions, w.permissions, v.rules[target], v.rules[latest])
  }

  method SetHostnames(target: InboundPolicy, hostnames: seq<string>, ghost v: View) returns (ghost w: View)
    requires Shows(v) && target in v.hosts
    modifies target`hostnames
    ensures w == v.(hosts := v.hosts[target := Elements(hostnames)]) && Shows(w)
  {
    target.hostnames := hostnames;
    w := v.(hosts := v.hosts[target := Elements(hostnames)]);
  }

  method SetRules(target: InboundPolicy, rules: seq<Rule>, ghost v: View) returns (ghost w: View)
    requires Shows(v) && target in v.rules
    modifies target`rules
    ensures w == v.(rules := v.rules[target := rules]) && Shows(w)
  {
    target.rules := rules;
    w := v.(rules := v.rules[target := rules]);
  }

  method MergeRulesOf(target: InboundPolicy, latest: InboundPolicy, ghost v: View)
    returns (merged: seq<Rule>, ghost w: View)
    requires Shows(v) && WellFormed(v) && target in v.hosts && latest in v.hosts
    modifies v.permissions.Keys
    ensures Shows(w) && w == v.(permissions := w.permissions) && w.permissions.Keys == v.permissions.Keys
    ensures merged == MergedRules(v.rules[target], v.rules[latest], |v.rules[latest]|)
    ensures IsJoined(v.permissions, w.permissions, v.rules[target], v.rules[latest])
  {
    assert Listed(v.rules[target], v.permissions.Keys) && Listed(v.rules[latest], v.permissions.Keys);
    ghost var permissions;
    merged, permissions := MergeEach(target.rules, latest.rules, v.permissions);
    w := v.(permissions := permissions);
    assert w.hosts == v.hosts && w.rules == v.rules;
  }

  method Join(target: InboundPolicy, latest: InboundPolicy, union: seq<string>, ghost v: View) returns (ghost w: View)
    requires Shows(v) && WellFormed(v) && target in v.hosts && latest in v.hosts
    requires Elements(union) == v.hosts[target] + v.hosts[latest]
    modifies target, v.permissions.Keys
    ensures Shows(w) && JoinedView(v, w, target, latest)
  {
    w := SetHostnames(target, union, v);
    var merged;
    merged, w := MergeRulesOf(target, latest, w);
    w := SetRules(target, merged, w);
  }

  /** Merges one policy into another if their hosts are comparable. */
  method MergePolicy(target: InboundPolicy, latest: InboundPolicy, ghost v: View) returns (found: bool, ghost w: View)
    requires Shows(v) && WellFormed(v) && target in v.hosts && latest in v.hosts
    modifies v.hosts.Keys, v.permissions.Keys
    ensures Shows(w) && SameKeys(v, w)
    ensures found == Comparable(v.hosts[target], v.hosts[latest])
    ensures if found then JoinedView(v, w, target, latest) else w == v
  {
    var union := SlicesUnionIfSubset(target.hostnames, latest.hostnames);
    found := |union| > 0;
    assert found ==> union[0] in Elements(union);
    w := v;
    if found {
      w := Join(target, latest, union, v);
    }
  }

  // ---------------------------------------------------------------------------
  // Merging one policy into every comparable one

  /** The policy is among the first `n`. */
  predicate Among(policies: seq<InboundPolicy>, n: nat, p: InboundPolicy)
    requires n <= |policies|
  {
    n > 0 && (policies[n - 1] == p || Among(policies, n - 1, p))
  }

  /** The policy takes in the latest one. */
  ghost predicate Takes(v: View, p: InboundPolicy, latest: InboundPolicy)
    requires p in v.hosts && latest in v.hosts
  {
    Comparable(v.hosts[p], v.hosts[latest])
  }

  ghost predicate AreIn(policies: seq<InboundPolicy>, v: View) {
    forall i :: 0 <= i < |policies| ==> policies[i] in v.hosts
  }

  ghost predicate SomeTake(v: View, policies: seq<InboundPolicy>, n: nat, latest: InboundPolicy)
    requires n <= |policies| && AreIn(policies, v) && latest in v.hosts
  {
    n > 0 && (Takes(v, policies[n - 1], latest) || SomeTake(v, policies, n - 1, latest))
  }

  /** The rule is the one for its route into which one of the first `n` policies, taking in the latest, merges. */
  ghost predicate Receives(v: View, policies: seq<InboundPolicy>, n: nat, latest: InboundPolicy, r: Rule)
    requires WellFormed(v) && n <= |policies| && AreIn(policies, v) && latest in v.hosts
  {
    n > 0 &&
    (|| (Takes(v, policies[n - 1], latest) && IsFirstIn(v, policies[n - 1], latest, r))
     || Receives(v, policies, n - 1, latest, r))
  }

  ghost predicate IsFirstIn(v: View, p: InboundPolicy, latest: InboundPolicy, r: Rule)
    requires p in v.rules && latest in v.rules
  {
    FirstOf(v.rules[p], v.rules[latest], |v.rules[latest]|, r.route) == Some(r)
  }

  ghost function HostsAfter(v: View, policies: seq<InboundPolicy>, n: nat, latest: InboundPolicy,
                            p: InboundPolicy): set<string>
    requires n <= |policies| && p in v.hosts && latest in v.hosts
  {
    if Among(policies, n, p) && Takes(v, p, latest) then v.hosts[p] + v.hosts[latest] else v.hosts[p]
  }

  ghost function RulesAfter(v: View, policies: seq<InboundPolicy>, n: nat, latest: InboundPolicy,
                            p: InboundPolicy): seq<Rule>
    requires WellFormed(v) && n <= |policies| && p in v.hosts && latest in v.hosts
  {
    if Among(policies, n, p) && Takes(v, p, latest) then MergedRules(v.rules[p], v.rules[latest], |v.rules[latest]|)
    else v.rules[p]
  }

  ghost function Gains(v: View, policies: seq<InboundPolicy>, n: nat, latest: InboundPolicy,
                       r: Rule): set<(Route, string)>
    requires WellFormed(v) && n <= |policies| && AreIn(policies, v) && latest in v.hosts
  {
    if Receives(v, policies, n, latest, r) then OfRoute(Allowed(v, latest), r.route) else {}
  }

  /** The view after the latest policy has been offered to the first `n`, in closed form. */
  ghost predicate Spread(v: View, w: View, policies: seq<InboundPolicy>, n: nat, latest: InboundPolicy)
    requires WellFormed(v) && n <= |policies| && AreIn(policies, v) && latest in v.hosts
  {
    && SameKeys(v, w)
    && (forall p <- v.hosts :: w.hosts[p] == HostsAfter(v, policies, n, latest, p))
    && (forall p <- v.hosts :: w.rules[p] == RulesAfter(v, policies, n, latest, p))
    && (forall r <- v.permissions :: w.permissions[r] == v.permissions[r] + Gains(v, policies, n, latest, r))
  }

  lemma SpreadStart(v: View, policies: seq<InboundPolicy>, latest: InboundPolicy)
    requires WellFormed(v) && AreIn(policies, v) && latest in v.hosts
    ensures Spread(v, v, policies, 0, latest)
  {
  }

  lemma SpreadWellFormed(v: View, w: View, policies: seq<InboundPolicy>, n: nat, latest: InboundPolicy)
    requires WellFormed(v) && n <= |policies| && AreIn(policies, v) && latest in v.hosts
    requires Spread(v, w, policies, n, latest)
    ensures WellFormed(w)
  {
    forall p <- w.rules
      ensures Listed(w.rules[p], w.permissions.Keys)
    {
      assert Listed(v.rules[p], v.permissions.Keys) && Listed(v.rules[latest], v.permissions.Keys);
      MergedRulesListed(v.rules[p], v.rules[latest], |v.rules[latest]|, v.permissions.Keys);
    }
  }

  /** The latest policy itself stays as it is. */
  lemma LatestStays(v: View, w: View, policies: seq<InboundPolicy>, n: nat, latest: InboundPolicy)
    requires WellFormed(v) && n <= |policies| && AreIn(policies, v) && latest in v.hosts
    requires Spread(v, w, policies, n, latest)
    requires WellFormed(w)
    ensures w.hosts[latest] == v.hosts[latest] && w.rules[latest] == v.rules[latest]
    ensures Allowed(w, latest) == Allowed(v, latest)
  {
    MergedWithItself(v.rules[latest]);
    GrownWithin(v.permissions, w.permissions, v.rules[latest], Allowed(v, latest));
  }

  /** Rules that grow within what the list allows leave what it allows unchanged. */
  lemma GrownWithin(v: Snapshot, w: Snapshot, rules: seq<Rule>, allowed: set<(Route, string)>)
    requires v.Keys == w.Keys && Listed(rules, v.Keys) && allowed == Recorded(v, rules)
    requires forall r <- v :: v[r] <= w[r] <= v[r] + allowed
    ensures Recorded(w, rules) == allowed
  {
    forall r <- rules
      ensures v[r] <= Recorded(w, rules) && w[r] <= allowed
    {
      RecordedHas(v, rules, r);
      RecordedHas(w, rules, r);
    }
    RecordedWithin(v, rules, Recorded(w, rules));
    RecordedWithin(w, rules, allowed);
  }

  /** Being offered the latest policy again makes no difference. */
  lemma TakesStill(v: View, u: View, policies: seq<InboundPolicy>, n: nat, latest: InboundPolicy, p: InboundPolicy)
    requires WellFormed(v) && n <= |policies| && AreIn(policies, v) && latest in v.hosts && p in v.hosts
    requires WellFormed(u) && Spread(v, u, policies, n, latest)
    ensures Takes(u, p, latest) == Takes(v, p, latest)
  {
    LatestStays(v, u, policies, n, latest);
  }

  lemma HostsStep(v: View, u: View, w: View, policies: seq<InboundPolicy>, n: nat, latest: InboundPolicy,
                  p: InboundPolicy)
    requires WellFormed(v) && n < |policies| && AreIn(policies, v) && latest in v.hosts && p in v.hosts
    requires WellFormed(u) && Spread(v, u, policies, n, latest)
    requires if Takes(u, policies[n], latest) then JoinedView(u, w, policies[n], latest) else w == u
    ensures p in w.hosts && w.hosts[p] == HostsAfter(v, policies, n + 1, latest, p)
  {
    LatestStays(v, u, policies, n, latest);
    TakesStill(v, u, policies, n, latest, policies[n]);
  }

  lemma RulesStep(v: View, u: View, w: View, policies: seq<InboundPolicy>, n: nat, latest: InboundPolicy,
                  p: InboundPolicy)
    requires WellFormed(v) && n < |policies| && AreIn(policies, v) && latest in v.hosts && p in v.hosts
    requires WellFormed(u) && Spread(v, u, policies, n, latest)
    requires if Takes(u, policies[n], latest) then JoinedView(u, w, policies[n], latest) else w == u
    ensures p in w.rules && w.rules[p] == RulesAfter(v, policies, n + 1, latest, p)
  {
    LatestStays(v, u, policies, n, latest);
    TakesStill(v, u, policies, n, latest, policies[n]);
    MergedAgain(v.rules[p], v.rules[latest]);
  }

  lemma FirstStill(v: View, u: View, policies: seq<InboundPolicy>, n: nat, latest: InboundPolicy, p: InboundPolicy,
                   r: Rule)
    requires WellFormed(v) && n <= |policies| && AreIn(policies, v) && latest in v.hosts && p in v.hosts
    requires WellFormed(u) && Spread(v, u, policies, n, latest)
    ensures IsFirstIn(u, p, latest, r) == IsFirstIn(v, p, latest, r)
  {
    LatestStays(v, u, policies, n, latest);
    FirstOfMergedAgain(v.rules[p], v.rules[latest], r.route);
  }

  lemma PermissionsStep(v: View, u: View, w: View, policies: seq<InboundPolicy>, n: nat, latest: InboundPolicy, r: Rule)
    requires WellFormed(v) && n < |policies| && AreIn(policies, v) && latest in v.hosts && r in v.permissions
    requires WellFormed(u) && Spread(v, u, policies, n, latest)
    requires if Takes(u, policies[n], latest) then JoinedView(u, w, policies[n], latest) else w == u
    ensures r in w.permissions && w.permissions[r] == v.permissions[r] + Gains(v, policies, n + 1, latest, r)
  {
    LatestStays(v, u, policies, n, latest);
    TakesStill(v, u, policies, n, latest, policies[n]);
    FirstStill(v, u, policies, n, latest, policies[n], r);
    GainedIsRecorded(u.permissions, u.rules[policies[n]], u.rules[latest], r);
  }

  lemma SpreadStep(v: View, u: View, w: View, policies: seq<InboundPolicy>, n: nat, latest: InboundPolicy)
    requires WellFormed(v) && n < |policies| && AreIn(policies, v) && latest in v.hosts
    requires WellFormed(u) && Spread(v, u, policies, n, latest) && SameKeys(u, w)
    requires if Takes(u, policies[n], latest) then JoinedView(u, w, policies[n], latest) else w == u
    ensures Spread(v, w, policies, n + 1, latest)
  {
    forall p <- v.hosts
      ensures w.hosts[p] == HostsAfter(v, policies, n + 1, latest, p)
      ensures w.rules[p] == RulesAfter(v, policies, n + 1, latest, p)
    {
      HostsStep(v, u, w, policies, n, latest, p);
      RulesStep(v, u, w, policies, n, latest, p);
    }
    forall r <- v.permissions
      ensures w.permissions[r] == v.permissions[r] + Gains(v, policies, n + 1, latest, r)
    {
      PermissionsStep(v, u, w, policies, n, latest, r);
    }
  }

  /** Offers the latest policy to one more policy. */
  method OfferTo(policies: seq<InboundPolicy>, n: nat, latest: InboundPolicy, ghost v: View, ghost u: View)
    returns (found: bool, ghost w: View)
    requires WellFormed(v) && n < |policies| && AreIn(policies, v) && latest in v.hosts
    requires Shows(u) && Spread(v, u, policies, n, latest)
    modifies u.hosts.Keys, u.permissions.Keys
    ensures Shows(w) && SameKeys(u, w) && Spread(v, w, policies, n + 1, latest)
    ensures found == Takes(v, policies[n], latest)
  {
    SpreadWellFormed(v, u, policies, n, latest);
    TakesStill(v, u, policies, n, latest, policies[n]);
    found, w := MergePolicy(policies[n], latest, u);
    SpreadStep(v, u, w, policies, n, latest);
  }

  /** Merges a policy into every policy with comparable hosts. */
  method MergeIntoEach(policies: seq<InboundPolicy>, latest: InboundPolicy, ghost v: View)
    returns (found: bool, ghost w: View)
    requires Shows(v) && WellFormed(v) && AreIn(policies, v) && latest in v.hosts
    modifies v.hosts.Keys, v.permissions.Keys
    ensures Shows(w) && SameKeys(v, w) && Spread(v, w, policies, |policies|, latest)
    ensures found == SomeTake(v, policies, |policies|, latest)
  {
    found, w := false, v;
    SpreadStart(v, policies, latest);
    for n := 0 to |policies|
      invariant Shows(w) && SameKeys(v, w) && Spread(v, w, policies, n, latest)
      invariant found == SomeTake(v, policies, n, latest)
    {
      var taken;
      taken, w := OfferTo(policies, n, latest, v, w);
      found := found || taken;
    }
  }

  // ---------------------------------------------------------------------------
  // Who is granted what by it

  lemma {:induction false} AmongMember(policies: seq<InboundPolicy>, n: nat, j: nat)
    requires j < n <= |policies|
    ensures Among(policies, n, policies[j])
  {
    if j < n - 1 {
      AmongMember(policies, n - 1, j);
    }
  }

  lemma {:induction false} FirstReceives(v: View, policies: seq<InboundPolicy>, n: nat, latest: InboundPolicy,
                                         p: InboundPolicy, r: Rule)
    requires WellFormed(v) && n <= |policies| && AreIn(policies, v) && latest in v.hosts && p in v.hosts
    requires Among(policies, n, p) && Takes(v, p, latest) && IsFirstIn(v, p, latest, r)
    ensures Receives(v, policies, n, latest, r)
  {
    if policies[n - 1] != p {
      FirstReceives(v, policies, n - 1, latest, p, r);
    }
  }

  /** All that a policy allows stays, and nothing is added but what the latest one allows. */
  lemma SpreadBounds(v: View, w: View, policies: seq<InboundPolicy>, n: nat, latest: InboundPolicy, p: InboundPolicy)
    requires WellFormed(v) && n <= |policies| && AreIn(policies, v) && latest in v.hosts
    requires Spread(v, w, policies, n, latest)
    requires WellFormed(w) && p in v.hosts
    ensures v.hosts[p] <= w.hosts[p] <= v.hosts[p] + v.hosts[latest]
    ensures Allowed(v, p) <= Allowed(w, p) <= Allowed(v, p) + Allowed(v, latest)
  {
    var both := Objects(v.rules[p]) + Objects(v.rules[latest]);
    MergedRulesListed(v.rules[p], v.rules[latest], |v.rules[latest]|, both);
    forall r <- v.rules[p]
      ensures v.permissions[r] <= Allowed(w, p)
    {
      assert r in w.rules[p];
      RecordedHas(w.permissions, w.rules[p], r);
    }
    RecordedWithin(v.permissions, v.rules[p], Allowed(w, p));
    forall r <- w.rules[p]
      ensures w.permissions[r] <= Allowed(v, p) + Allowed(v, latest)
    {
      assert r in both;
      if r in v.rules[p] {
        RecordedHas(v.permissions, v.rules[p], r);
      } else {
        RecordedHas(v.permissions, v.rules[latest], r);
      }
    }
    RecordedWithin(w.permissions, w.rules[p], Allowed(v, p) + Allowed(v, latest));
  }

  /** A policy that takes in the latest one has the hosts of both and allows exactly what both do. */
  lemma TakerAllows(v: View, w: View, policies: seq<InboundPolicy>, n: nat, latest: InboundPolicy, p: InboundPolicy)
    requires WellFormed(v) && n <= |policies| && AreIn(policies, v) && latest in v.hosts
    requires Spread(v, w, policies, n, latest)
    requires WellFormed(w) && p in v.hosts && Among(policies, n, p) && Takes(v, p, latest)
    ensures w.hosts[p] == v.hosts[p] + v.hosts[latest] && Allowed(w, p) == Allowed(v, p) + Allowed(v, latest)
  {
    SpreadBounds(v, w, policies, n, latest, p);
    forall x <- Allowed(v, latest)
      ensures x in Allowed(w, p)
    {
      TakerAllowsPair(v, w, policies, n, latest, p, x);
    }
  }

  lemma TakerAllowsPair(v: View, w: View, policies: seq<InboundPolicy>, n: nat, latest: InboundPolicy, p: InboundPolicy,
                        x: (Route, string))
    requires WellFormed(v) && n <= |policies| && AreIn(policies, v) && latest in v.hosts
    requires Spread(v, w, policies, n, latest)
    requires WellFormed(w) && p in v.hosts && Among(policies, n, p) && Takes(v, p, latest) && x in Allowed(v, latest)
    ensures x in Allowed(w, p)
  {
    var own, more := v.rules[p], v.rules[latest];
    FirstOfRecorded(v.permissions, own, more, x);
    MergedRulesFirst(own, more, |more|, x.0);
    var first := FirstRule(MergedRules(own, more, |more|), x.0).value;
    assert first in w.rules[p];
    FirstReceives(v, policies, n, latest, p, first);
    RecordedHas(w.permissions, w.rules[p], first);
  }

  /** What a policy that does not take in the latest one gains from it nevertheless, through rules that it shares with
      one that does. */
  ghost function Leaked(v: View, policies: seq<InboundPolicy>, n: nat, latest: InboundPolicy,
                        p: InboundPolicy): set<(Route, string)>
    requires WellFormed(v) && n <= |policies| && AreIn(policies, v) && latest in v.hosts && p in v.hosts
  {
    set x | x in Allowed(v, latest) && SharesRule(v, policies, n, latest, p, x.0)
  }

  ghost predicate SharesRule(v: View, policies: seq<InboundPolicy>, n: nat, latest: InboundPolicy, p: InboundPolicy,
                             route: Route)
    requires WellFormed(v) && n <= |policies| && AreIn(policies, v) && latest in v.hosts && p in v.hosts
  {
    exists r <- v.rules[p] :: r.route == route && Receives(v, policies, n, latest, r)
  }

  /** Any other policy keeps its hosts and allows exactly what it did and what leaks to it. */
  lemma OtherAllows(v: View, w: View, policies: seq<InboundPolicy>, n: nat, latest: InboundPolicy, p: InboundPolicy)
    requires WellFormed(v) && n <= |policies| && AreIn(policies, v) && latest in v.hosts
    requires Spread(v, w, policies, n, latest)
    requires WellFormed(w) && p in v.hosts && !(Among(policies, n, p) && Takes(v, p, latest))
    ensures w.hosts[p] == v.hosts[p] && Allowed(w, p) == Allowed(v, p) + Leaked(v, policies, n, latest, p)
  {
    var leaked := Leaked(v, policies, n, latest, p);
    SpreadBounds(v, w, policies, n, latest, p);
    forall r <- v.rules[p]
      ensures w.permissions[r] <= Allowed(v, p) + leaked
    {
      RecordedHas(v.permissions, v.rules[p], r);
    }
    RecordedWithin(w.permissions, v.rules[p], Allowed(v, p) + leaked);
    forall x <- leaked
      ensures x in Allowed(w, p)
    {
      var r :| r in v.rules[p] && r.route == x.0 && Receives(v, policies, n, latest, r);
      RecordedHas(w.permissions, w.rules[p], r);
    }
  }

  /** One latest policy has been merged: it is appended exactly when no policy of the list takes it in. */
  ghost predicate OneMerged(v: View, w: View, policies: seq<InboundPolicy>, merged: seq<InboundPolicy>,
                            latest: InboundPolicy) {
    && WellFormed(v) && WellFormed(w) && AreIn(policies, v) && latest in v.hosts
    && Spread(v, w, policies, |policies|, latest)
    && merged == if SomeTake(v, policies, |policies|, latest) then policies else policies + [latest]
  }

  /** Some policy of the list grants the pair on the host. */
  ghost predicate Grants(v: View, policies: seq<InboundPolicy>, host: string, x: (Route, string))
    requires WellFormed(v) && AreIn(policies, v)
  {
    exists i :: 0 <= i < |policies| && GrantsOn(v, policies[i], host, x)
  }

  ghost predicate GrantsOn(v: View, p: InboundPolicy, host: string, x: (Route, string))
    requires WellFormed(v) && p in v.hosts
  {
    host in v.hosts[p] && x in Allowed(v, p)
  }

  /** What a policy of the list grants after the merge, in terms of what was there before it. */
  ghost predicate WillGrant(v: View, policies: seq<InboundPolicy>, latest: InboundPolicy, p: InboundPolicy,
                            host: string, x: (Route, string))
    requires WellFormed(v) && AreIn(policies, v) && latest in v.hosts && p in v.hosts
  {
    if Takes(v, p, latest) then host in v.hosts[p] + v.hosts[latest] && x in Allowed(v, p) + Allowed(v, latest)
    else host in v.hosts[p] && x in Allowed(v, p) + Leaked(v, policies, |policies|, latest, p)
  }

  lemma WillGrantIff(v: View, w: View, policies: seq<InboundPolicy>, latest: InboundPolicy, i: nat, host: string,
                     x: (Route, string))
    requires WellFormed(v) && WellFormed(w) && AreIn(policies, v) && latest in v.hosts && i < |policies|
    requires Spread(v, w, policies, |policies|, latest)
    ensures GrantsOn(w, policies[i], host, x) <==> WillGrant(v, policies, latest, policies[i], host, x)
  {
    AmongMember(policies, |policies|, i);
    if Takes(v, policies[i], latest) {
      TakerAllows(v, w, policies, |policies|, latest, policies[i]);
    } else {
      OtherAllows(v, w, policies, |policies|, latest, policies[i]);
    }
  }

  /** Exactly which (host, route, principal) triples are granted after one policy has been merged. */
  lemma MergedGrantsIff(v: View, w: View, policies: seq<InboundPolicy>, merged: seq<InboundPolicy>,
                        latest: InboundPolicy, host: string, x: (Route, string))
    requires OneMerged(v, w, policies, merged, latest)
    ensures AreIn(merged, w)
    ensures Grants(w, merged, host, x) <==>
            || (exists i :: 0 <= i < |policies| && WillGrant(v, policies, latest, policies[i], host, x))
            || (!SomeTake(v, policies, |policies|, latest) && GrantsOn(v, latest, host, x))
  {
    LatestStays(v, w, policies, |policies|, latest);
    forall i | 0 <= i < |policies|
      ensures GrantsOn(w, policies[i], host, x) <==> WillGrant(v, policies, latest, policies[i], host, x)
    {
      WillGrantIff(v, w, policies, latest, i, host, x);
    }
    forall i | 0 <= i < |policies|
      ensures merged[i] == policies[i]
    {
    }
    if !SomeTake(v, policies, |policies|, latest) && GrantsOn(v, latest, host, x) {
      assert GrantsOn(w, merged[|policies|], host, x);
    }
  }

  // ---------------------------------------------------------------------------
  // Merging a list of policies

  /** The list has a policy with all these hosts that allows all these pairs. */
  ghost predicate Covered(v: View, policies: seq<InboundPolicy>, hosts: set<string>, allowed: set<(Route, string)>)
    requires WellFormed(v) && AreIn(policies, v)
  {
    exists i :: 0 <= i < |policies| && Covers(v, policies[i], hosts, allowed)
  }

  ghost predicate Covers(v: View, p: InboundPolicy, hosts: set<string>, allowed: set<(Route, string)>)
    requires WellFormed(v) && p in v.hosts
  {
    hosts <= v.hosts[p] && allowed <= Allowed(v, p)
  }

  lemma {:induction false} SomeTaker(v: View, policies: seq<InboundPolicy>, n: nat, latest: InboundPolicy)
    returns (i: nat)
    requires n <= |policies| && AreIn(policies, v) && latest in v.hosts && SomeTake(v, policies, n, latest)
    ensures i < n && Takes(v, policies[i], latest)
  {
    if Takes(v, policies[n - 1], latest) {
      i := n - 1;
    } else {
      i := SomeTaker(v, policies, n - 1, latest);
    }
  }

  lemma LatestIsCovered(v: View, w: View, policies: seq<InboundPolicy>, merged: seq<InboundPolicy>,
                        latest: InboundPolicy)
    requires OneMerged(v, w, policies, merged, latest)
    ensures AreIn(merged, w) && Covered(w, merged, v.hosts[latest], Allowed(v, latest))
  {
    if SomeTake(v, policies, |policies|, latest) {
      var i := SomeTaker(v, policies, |policies|, latest);
      AmongMember(policies, |policies|, i);
      TakerAllows(v, w, policies, |policies|, latest, policies[i]);
      assert Covers(w, merged[i], v.hosts[latest], Allowed(v, latest));
    } else {
      LatestStays(v, w, policies, |policies|, latest);
      assert Covers(w, merged[|policies|], v.hosts[latest], Allowed(v, latest));
    }
  }

  lemma CoveredStays(v: View, w: View, policies: seq<InboundPolicy>, merged: seq<InboundPolicy>, latest: InboundPolicy,
                     hosts: set<string>, allowed: set<(Route, string)>)
    requires OneMerged(v, w, policies, merged, latest) && Covered(v, policies, hosts, allowed)
    ensures AreIn(merged, w) && Covered(w, merged, hosts, allowed)
  {
    MergedAreIn(v, w, policies, merged, latest);
    var i :| 0 <= i < |policies| && Covers(v, policies[i], hosts, allowed);
    CoversStays(v, w, policies, latest, policies[i], hosts, allowed);
    assert merged[i] == policies[i];
  }

  lemma CoversStays(v: View, w: View, policies: seq<InboundPolicy>, latest: InboundPolicy, p: InboundPolicy,
                    hosts: set<string>, allowed: set<(Route, string)>)
    requires WellFormed(v) && WellFormed(w) && AreIn(policies, v) && latest in v.hosts && p in v.hosts
    requires Spread(v, w, policies, |policies|, latest) && Covers(v, p, hosts, allowed)
    ensures p in w.hosts && Covers(w, p, hosts, allowed)
  {
    SpreadBounds(v, w, policies, |policies|, latest, p);
  }

  /** Compared with an earlier view no policy has lost anything, and none has anything but these hosts and pairs. */
  ghost predicate Between(u: View, w: View, hosts: set<string>, allowed: set<(Route, string)>)
    requires WellFormed(u) && WellFormed(w)
  {
    SameKeys(u, w) && forall p <- u.hosts ::
      u.hosts[p] <= w.hosts[p] <= hosts && Allowed(u, p) <= Allowed(w, p) <= allowed
  }

  lemma MergedAreIn(v: View, w: View, policies: seq<InboundPolicy>, merged: seq<InboundPolicy>, latest: InboundPolicy)
    requires OneMerged(v, w, policies, merged, latest)
    ensures WellFormed(w) && SameKeys(v, w) && AreIn(merged, w)
  {
  }

  lemma BetweenStep(u: View, v: View, w: View, policies: seq<InboundPolicy>, merged: seq<InboundPolicy>,
                    latest: InboundPolicy, hosts: set<string>, allowed: set<(Route, string)>)
    requires WellFormed(u) && OneMerged(v, w, policies, merged, latest) && Between(u, v, hosts, allowed)
    ensures WellFormed(w) && AreIn(merged, w) && Between(u, w, hosts, allowed)
  {
    MergedAreIn(v, w, policies, merged, latest);
    forall p <- u.hosts
      ensures u.hosts[p] <= w.hosts[p] <= hosts && Allowed(u, p) <= Allowed(w, p) <= allowed
    {
      SpreadBounds(v, w, policies, |policies|, latest, p);
      assert v.hosts[latest] <= hosts && Allowed(v, latest) <= allowed;
    }
  }

  /** Merges one policy into the list, or appends it. */
  method MergeOne(policies: seq<InboundPolicy>, latest: InboundPolicy, ghost v: View)
    returns (merged: seq<InboundPolicy>, ghost w: View)
    requires Shows(v) && WellFormed(v) && AreIn(policies, v) && latest in v.hosts
    modifies v.hosts.Keys, v.permissions.Keys
    ensures Shows(w) && SameKeys(v, w) && OneMerged(v, w, policies, merged, latest)
  {
    var found;
    found, w := MergeIntoEach(policies, latest, v);
    SpreadWellFormed(v, w, policies, |policies|, latest);
    merged := if found then policies else policies + [latest];
  }

  /** The views and lists of a merge: at the start and after each of the latest policies. */
  datatype Trace = Trace(views: seq<View>, lists: seq<seq<InboundPolicy>>)

  ghost predicate IsTrace(t: Trace, original: seq<InboundPolicy>, latest: seq<InboundPolicy>, n: nat)
    requires n <= |latest|
  {
    && |t.views| == |t.lists| > n && t.lists[0] == original
    && (n > 0 ==>
          && IsTrace(t, original, latest, n - 1)
          && OneMerged(t.views[n - 1], t.views[n], t.lists[n - 1], t.lists[n], latest[n - 1]))
  }

  lemma {:induction false} LongerTrace(t: Trace, more: Trace, original: seq<InboundPolicy>, latest: seq<InboundPolicy>,
                                       n: nat)
    requires n <= |latest| && IsTrace(t, original, latest, n)
    requires t.views <= more.views && t.lists <= more.lists && |more.views| == |more.lists|
    ensures IsTrace(more, original, latest, n)
  {
    if n > 0 {
      LongerTrace(t, more, original, latest, n - 1);
    }
  }

  lemma LastMerge(t: Trace, original: seq<InboundPolicy>, latest: seq<InboundPolicy>, n: nat)
    requires 0 < n <= |latest| && IsTrace(t, original, latest, n)
    ensures IsTrace(t, original, latest, n - 1)
    ensures OneMerged(t.views[n - 1], t.views[n], t.lists[n - 1], t.lists[n], latest[n - 1])
  {
  }

  lemma TraceStep(t: Trace, original: seq<InboundPolicy>, latest: seq<InboundPolicy>, n: nat, w: View,
                  merged: seq<InboundPolicy>)
    requires n < |latest| && IsTrace(t, original, latest, n) && |t.views| == n + 1
    requires OneMerged(t.views[n], w, t.lists[n], merged, latest[n])
    ensures IsTrace(Trace(t.views + [w], t.lists + [merged]), original, latest, n + 1)
  {
    var more := Trace(t.views + [w], t.lists + [merged]);
    LongerTrace(t, more, original, latest, n);
    assert more.views[n] == t.views[n] && more.lists[n] == t.lists[n];
    assert more.views[n + 1] == w && more.lists[n + 1] == merged;
  }

  ghost predicate StartsWell(t: Trace, original: seq<InboundPolicy>, latest: seq<InboundPolicy>, hosts: set<string>,
                             allowed: set<(Route, string)>)
    requires |t.views| > 0
  {
    && WellFormed(t.views[0]) && AreIn(original, t.views[0]) && AreIn(latest, t.views[0])
    && Between(t.views[0], t.views[0], hosts, allowed)
  }

  lemma {:induction false} TraceBetween(t: Trace, original: seq<InboundPolicy>, latest: seq<InboundPolicy>, n: nat,
                                        hosts: set<string>, allowed: set<(Route, string)>)
    requires n <= |latest| && IsTrace(t, original, latest, n) && StartsWell(t, original, latest, hosts, allowed)
    ensures WellFormed(t.views[n]) && Between(t.views[0], t.views[n], hosts, allowed) && AreIn(t.lists[n], t.views[n])
  {
    if n > 0 {
      TraceBetween(t, original, latest, n - 1, hosts, allowed);
      LastMerge(t, original, latest, n);
      BetweenStep(t.views[0], t.views[n - 1], t.views[n], t.lists[n - 1], t.lists[n], latest[n - 1], hosts, allowed);
    }
  }

  lemma {:induction false} OriginalCovered(t: Trace, original: seq<InboundPolicy>, latest: seq<InboundPolicy>, n: nat,
                                           j: nat)
    requires n <= |latest| && j < |original| && IsTrace(t, original, latest, n)
    requires WellFormed(t.views[0]) && AreIn(original, t.views[0])
    ensures WellFormed(t.views[n]) && AreIn(t.lists[n], t.views[n])
    ensures Covered(t.views[n], t.lists[n], t.views[0].hosts[original[j]], Allowed(t.views[0], original[j]))
  {
    var hosts, allowed := t.views[0].hosts[original[j]], Allowed(t.views[0], original[j]);
    if n == 0 {
      assert Covers(t.views[0], t.lists[0][j], hosts, allowed);
    } else {
      OriginalCovered(t, original, latest, n - 1, j);
      CoveredStays(t.views[n - 1], t.views[n], t.lists[n - 1], t.lists[n], latest[n - 1], hosts, allowed);
    }
  }

  lemma LatestCoveredAtOnce(u: View, v: View, w: View, policies: seq<InboundPolicy>, merged: seq<InboundPolicy>,
                            latest: InboundPolicy, hosts: set<string>, allowed: set<(Route, string)>)
    requires WellFormed(u) && OneMerged(v, w, policies, merged, latest) && Between(u, v, hosts, allowed)
    requires latest in u.hosts
    ensures WellFormed(w) && AreIn(merged, w) && Covered(w, merged, u.hosts[latest], Allowed(u, latest))
  {
    LatestIsCovered(v, w, policies, merged, latest);
    LessIsCovered(w, merged, v.hosts[latest], Allowed(v, latest), u.hosts[latest], Allowed(u, latest));
  }

  lemma {:induction false} LatestCovered(t: Trace, original: seq<InboundPolicy>, latest: seq<InboundPolicy>, n: nat,
                                         j: nat, hosts: set<string>, allowed: set<(Route, string)>)
    requires j < n <= |latest| && IsTrace(t, original, latest, n) && StartsWell(t, original, latest, hosts, allowed)
    ensures WellFormed(t.views[n]) && AreIn(t.lists[n], t.views[n])
    ensures Covered(t.views[n], t.lists[n], t.views[0].hosts[latest[j]], Allowed(t.views[0], latest[j]))
  {
    var own, pairs := t.views[0].hosts[latest[j]], Allowed(t.views[0], latest[j]);
    LastMerge(t, original, latest, n);
    if j == n - 1 {
      TraceBetween(t, original, latest, j, hosts, allowed);
      LatestCoveredAtOnce(t.views[0], t.views[j], t.views[n], t.lists[j], t.lists[n], latest[j], hosts, allowed);
    } else {
      LatestCovered(t, original, latest, n - 1, j, hosts, allowed);
      CoveredStays(t.views[n - 1], t.views[n], t.lists[n - 1], t.lists[n], latest[n - 1], own, pairs);
    }
  }

  lemma LessIsCovered(v: View, policies: seq<InboundPolicy>, hosts: set<string>, allowed: set<(Route, string)>,
                      fewer: set<string>, less: set<(Route, string)>)
    requires WellFormed(v) && AreIn(policies, v) && Covered(v, policies, hosts, allowed) && fewer <= hosts
    requires less <= allowed
    ensures Covered(v, policies, fewer, less)
  {
    var i :| 0 <= i < |policies| && Covers(v, policies[i], hosts, allowed);
    assert Covers(v, policies[i], fewer, less);
  }

  method MergeEachPolicy(original: seq<InboundPolicy>, latest: seq<InboundPolicy>, ghost v: View)
    returns (merged: seq<InboundPolicy>, ghost t: Trace)
    requires Shows(v) && WellFormed(v) && AreIn(original, v) && AreIn(latest, v)
    modifies v.hosts.Keys, v.permissions.Keys
    ensures IsTrace(t, original, latest, |latest|) && t.views[0] == v && merged == t.lists[|latest|]
    ensures SameKeys(v, t.views[|latest|]) && Shows(t.views[|latest|])
  {
    merged, t := original, Trace([v], [original]);
    for i := 0 to |latest|
      invariant IsTrace(t, original, latest, i) && |t.views| == i + 1 && t.views[0] == v && merged == t.lists[i]
      invariant SameKeys(v, t.views[i]) && Shows(t.views[i]) && WellFormed(t.views[i]) && AreIn(merged, t.views[i])
    {
      merged, t := MergeNextPolicy(original, latest, i, merged, t);
    }
  }

  method MergeNextPolicy(original: seq<InboundPolicy>, latest: seq<InboundPolicy>, i: nat, policies: seq<InboundPolicy>,
                         ghost t: Trace)
    returns (merged: seq<InboundPolicy>, ghost more: Trace)
    requires i < |latest| && IsTrace(t, original, latest, i) && |t.views| == i + 1 && policies == t.lists[i]
    requires Shows(t.views[i]) && WellFormed(t.views[i]) && AreIn(policies, t.views[i]) && latest[i] in t.views[i].hosts
    modifies t.views[i].hosts.Keys, t.views[i].permissions.Keys
    ensures IsTrace(more, original, latest, i + 1) && |more.views| == i + 2 && more.views[0] == t.views[0]
    ensures merged == more.lists[i + 1] && SameKeys(t.views[i], more.views[i + 1]) && Shows(more.views[i + 1])
    ensures WellFormed(more.views[i + 1]) && AreIn(merged, more.views[i + 1])
  {
    ghost var w;
    merged, w := MergeOne(policies, latest[i], t.views[i]);
    MergedAreIn(t.views[i], w, policies, merged, latest[i]);
    more := Trace(t.views + [w], t.lists + [merged]);
    TraceStep(t, original, latest, i, w, merged);
  }

  // ---------------------------------------------------------------------------
  // In terms of the policies themselves

  ghost function RuleObjects(policies: set<InboundPolicy>): set<Rule>
    reads policies
  {
    set p, r | p in policies && r in p.rules :: r
  }

  ghost function AllHosts(policies: set<InboundPolicy>): set<string>
    reads policies
  {
    set p, h | p in policies && h in p.hostnames :: h
  }

  ghost function AllPermissions(policies: set<InboundPolicy>): set<(Route, string)>
    reads policies, RuleObjects(policies)
  {
    set r, x | r in RuleObjects(policies) && x in PermissionsOf(r) :: x
  }

  /** One policy of the list has all these hosts, and allows all these pairs on them. */
  ghost predicate Cover(policies: seq<InboundPolicy>, hosts: set<string>, permissions: set<(Route, string)>)
    reads policies, RuleObjects(Elements(policies))
  {
    exists p :: p in policies && hosts <= Elements(p.hostnames) &&
      assert forall r <- p.rules :: r in RuleObjects(Elements(policies));
      permissions <= Permissions(p.rules)
  }

  ghost function Now(policies: set<InboundPolicy>): (v: View)
    reads policies, RuleObjects(policies)
    ensures v.hosts.Keys == policies && v.permissions.Keys == RuleObjects(policies) && Shows(v) && WellFormed(v)
  {
    View(
      map p | p in policies :: Elements(p.hostnames),
      map p | p in policies :: p.rules,
      Current(RuleObjects(policies)))
  }

  lemma AllowedNow(v: View, p: InboundPolicy)
    requires Shows(v) && WellFormed(v) && p in v.hosts
    ensures Allowed(v, p) == Permissions(p.rules)
  {
    RecordedShown(v.permissions, p.rules);
  }

  lemma CoveredNow(v: View, policies: seq<InboundPolicy>, hosts: set<string>, allowed: set<(Route, string)>)
    requires Shows(v) && WellFormed(v) && AreIn(policies, v) && Covered(v, policies, hosts, allowed)
    ensures Cover(policies, hosts, allowed)
  {
    var i :| 0 <= i < |policies| && Covers(v, policies[i], hosts, allowed);
    AllowedNow(v, policies[i]);
  }

  lemma NowIsBounded(policies: set<InboundPolicy>)
    ensures Between(Now(policies), Now(policies), AllHosts(policies), AllPermissions(policies))
  {
    var v := Now(policies);
    forall p <- policies
      ensures v.hosts[p] <= AllHosts(policies) && Allowed(v, p) <= AllPermissions(policies)
    {
      RecordedWithin(v.permissions, v.rules[p], AllPermissions(policies));
    }
  }

  lemma TraceCovers(t: Trace, original: seq<InboundPolicy>, latest: seq<InboundPolicy>, p: InboundPolicy,
                    hosts: set<string>, allowed: set<(Route, string)>)
    requires IsTrace(t, original, latest, |latest|) && StartsWell(t, original, latest, hosts, allowed)
    requires p in original + latest && Shows(t.views[|latest|])
    ensures p in t.views[0].hosts && Cover(t.lists[|latest|], t.views[0].hosts[p], Allowed(t.views[0], p))
  {
    if p in original {
      var j :| 0 <= j < |original| && original[j] == p;
      OriginalCovered(t, original, latest, |latest|, j);
    } else {
      var j :| 0 <= j < |latest| && latest[j] == p;
      LatestCovered(t, original, latest, |latest|, j, hosts, allowed);
    }
    CoveredNow(t.views[|latest|], t.lists[|latest|], t.views[0].hosts[p], Allowed(t.views[0], p));
  }

  lemma TraceBounds(t: Trace, original: seq<InboundPolicy>, latest: seq<InboundPolicy>, p: InboundPolicy,
                    hosts: set<string>, allowed: set<(Route, string)>)
    requires IsTrace(t, original, latest, |latest|) && StartsWell(t, original, latest, hosts, allowed)
    requires p in t.lists[|latest|] && Shows(t.views[|latest|])
    ensures Elements(p.hostnames) <= hosts && Permissions(p.rules) <= allowed
  {
    TraceBetween(t, original, latest, |latest|, hosts, allowed);
    AllowedNow(t.views[|latest|], p);
  }

  lemma StartsNow(t: Trace, original: seq<InboundPolicy>, latest: seq<InboundPolicy>)
    requires |t.views| > 0 && t.views[0] == Now(Elements(original + latest))
    ensures var all := Elements(original + latest);
            && StartsWell(t, original, latest, AllHosts(all), AllPermissions(all))
            && (forall p <- all :: t.views[0].hosts[p] == Elements(p.hostnames))
            && (forall p <- all :: Allowed(t.views[0], p) == Permissions(p.rules))
  {
    NowIsBounded(Elements(original + latest));
    forall p <- Elements(original + latest) { AllowedNow(t.views[0], p); }
  }

  method MergeWithin(original: seq<InboundPolicy>, latest: seq<InboundPolicy>, ghost v: View, ghost hosts: set<string>,
                     ghost allowed: set<(Route, string)>)
    returns (merged: seq<InboundPolicy>, ghost t: Trace)
    requires Shows(v) && WellFormed(v) && AreIn(original, v) && AreIn(latest, v) && Between(v, v, hosts, allowed)
    modifies v.hosts.Keys, v.permissions.Keys
    ensures IsTrace(t, original, latest, |latest|) && merged == t.lists[|latest|]
    ensures t.views[0] == v && Shows(t.views[|latest|])
    ensures forall p <- original + latest :: p in v.hosts && Cover(merged, v.hosts[p], Allowed(v, p))
    ensures forall p <- merged :: Elements(p.hostnames) <= hosts && Permissions(p.rules) <= allowed
  {
    merged, t := MergeEachPolicy(original, latest, v);
    forall p <- original + latest { TraceCovers(t, original, latest, p, hosts, allowed); }
    forall p <- merged { TraceBounds(t, original, latest, p, hosts, allowed); }
  }

  /** Every step of the merge is as OneMerged says, which MergedGrantsIff spells out. So no permission is lost: each
      policy of either list is covered, as it was, by a policy of the result. And none is invented: the result has no
      other hosts, and pairs no principal with another route. */
  method MergeInboundPolicies(original: seq<InboundPolicy>, latest: seq<InboundPolicy>)
    returns (merged: seq<InboundPolicy>, ghost t: Trace)
    modifies Elements(original + latest), RuleObjects(Elements(original + latest))
    ensures IsTrace(t, original, latest, |latest|) && merged == t.lists[|latest|]
    ensures t.views[0] == old(Now(Elements(original + latest))) && Shows(t.views[|latest|])
    ensures forall p <- original + latest :: Cover(merged, old(Elements(p.hostnames)), old(Permissions(p.rules)))
    ensures forall p <- merged :: Elements(p.hostnames) <= old(AllHosts(Elements(original + latest)))
    ensures forall p <- merged :: Permissions(p.rules) <= old(AllPermissions(Elements(original + latest)))
  {
    ghost var all := Elements(original + latest);
    ghost var v, hosts, allowed := Now(all), AllHosts(all), AllPermissions(all);
    StartsNow(Trace([v], [original]), original, latest);
    merged, t := MergeWithin(original, latest, v, hosts, allowed);
  }
}
