/** Which identities may call, or be called by, a given one. */
module TrafficTargets {
  import opened GoStrings
  import opened Identity
  import opened Smi
  import opened Wrappers

  datatype Direction = Inbound | Outbound

  predicate IsAccount(s: Subject) {
    s.kind == SERVICE_ACCOUNT_KIND
  }

  /** The TrafficTarget names the one account as a source and the other as the destination. */
  predicate ConnectedBy(t: TrafficTarget, source: K8sServiceAccount, destination: K8sServiceAccount) {
    && t.destination.kind == "ServiceAccount" && IsSubject(t.destination, destination)
    && exists s <- t.sources :: s.kind == "ServiceAccount" && IsSubject(s, source)
  }

  /** Some valid TrafficTarget lets one account call the other. */
  predicate Connects(targets: seq<TrafficTarget>, source: K8sServiceAccount, destination: K8sServiceAccount) {
    exists t <- targets :: IsEffective(t) && ConnectedBy(t, source, destination)
  }

  predicate ConnectsTowards(targets: seq<TrafficTarget>, account: K8sServiceAccount, direction: Direction,
                            other: K8sServiceAccount) {
    if direction == Inbound then Connects(targets, other, account) else Connects(targets, account, other)
  }

  // ---------------------------------------------------------------------------
  // The accumulating loops

  /** What one TrafficTarget adds. */
  function Peers(t: TrafficTarget, account: K8sServiceAccount, direction: Direction): set<K8sServiceAccount> {
    if !IsAccount(t.destination) then {}
    else if direction == Inbound then
      if t.destination.Account() == account then set s | s in t.sources && IsAccount(s) :: s.Account() else {}
    else
      set s | s in t.sources && IsAccount(s) && s.Account() == account :: t.destination.Account()
  }

  function AllPeers(targets: seq<TrafficTarget>, account: K8sServiceAccount,
                    direction: Direction): set<K8sServiceAccount> {
    if targets == [] then {}
    else AllPeers(targets[..|targets| - 1], account, direction) + Peers(targets[|targets| - 1], account, direction)
  }

  lemma PeersAreConnected(t: TrafficTarget, account: K8sServiceAccount, direction: Direction, other: K8sServiceAccount)
    ensures other in Peers(t, account, direction) <==>
            if direction == Inbound then ConnectedBy(t, other, account) else ConnectedBy(t, account, other)
  {
  }

  lemma {:induction false} AllPeersAreConnected(targets: seq<TrafficTarget>, account: K8sServiceAccount,
                                                direction: Direction, other: K8sServiceAccount)
    requires forall t <- targets :: IsEffective(t)
    ensures other in AllPeers(targets, account, direction) <==> ConnectsTowards(targets, account, direction, other)
  {
    if targets != [] {
      var rest, last := targets[..|targets| - 1], targets[|targets| - 1];
      AllPeersAreConnected(rest, account, direction, other);
      PeersAreConnected(last, account, direction, other);
      assert forall t :: t in targets <==> t in rest || t == last;
    }
  }

  method AddSources(sources: seq<Subject>, allowed: set<K8sServiceAccount>) returns (more: set<K8sServiceAccount>)
    ensures more == allowed + set s | s in sources && IsAccount(s) :: s.Account()
  {
    more := allowed;
    for i := 0 to |sources|
      invariant more == allowed + set s | s in sources[..i] && IsAccount(s) :: s.Account()
    {
      assert sources[..i + 1] == sources[..i] + [sources[i]];
      if IsAccount(sources[i]) {
        more := more + {sources[i].Account()};
      }
    }
    assert sources[..|sources|] == sources;
  }

  method AddDestination(sources: seq<Subject>, account: K8sServiceAccount, destination: Subject,
                        allowed: set<K8sServiceAccount>)
    returns (more: set<K8sServiceAccount>)
    ensures more == allowed + set s | s in sources && IsAccount(s) && s.Account() == account :: destination.Account()
  {
    more := allowed;
    for i := 0 to |sources|
      invariant more == allowed + set s | s in sources[..i] && IsAccount(s) && s.Account() == account ::
          destination.Account()
    {
      assert sources[..i + 1] == sources[..i] + [sources[i]];
      if IsAccount(sources[i]) && sources[i].name == account.name && sources[i].namespace == account.namespace {
        assert sources[i] in sources[..i + 1];
        more := more + {destination.Account()};
      }
    }
    assert sources[..|sources|] == sources;
  }

  method CollectPeers(targets: seq<TrafficTarget>, account: K8sServiceAccount, direction: Direction)
    returns (allowed: set<K8sServiceAccount>)
    ensures allowed == AllPeers(targets, account, direction)
  {
    allowed := {};
    for i := 0 to |targets|
      invariant allowed == AllPeers(targets[..i], account, direction)
    {
      var t := targets[i];
      assert targets[..i + 1][..i] == targets[..i];
      if IsAccount(t.destination) {
        if direction == Inbound {
          if t.destination.name == account.name && t.destination.namespace == account.namespace {
            allowed := AddSources(t.sources, allowed);
          }
        } else {
          allowed := AddDestination(t.sources, account, t.destination, allowed);
        }
      }
    }
    assert targets[..|targets|] == targets;
  }

  /** The other identity is in the list for the given one. */
  ghost predicate InList(targets: seq<TrafficTarget>, si: ServiceIdentity, direction: Direction, other: ServiceIdentity)
    requires '.' in si
  {
    exists sa: K8sServiceAccount ::
      sa.ToServiceIdentity() == other && ConnectsTowards(targets, ToK8sServiceAccount(si), direction, sa)
  }

  method GetAllowedDirectionalServiceAccounts(targets: seq<TrafficTarget>, si: ServiceIdentity, direction: Direction)
    returns (identities: seq<ServiceIdentity>)
    requires '.' in si
    ensures forall x :: x in identities <==> InList(targets, si, direction, x)
  {
    var account := ToK8sServiceAccount(si);
    var valid := ListTrafficTargetsByOptions(targets, None);
    var allowed := CollectPeers(valid, account, direction);
    forall t { SelectedMembers(targets, None, t); }
    forall sa
      ensures sa in allowed <==> ConnectsTowards(targets, account, direction, sa)
    {
      AllPeersAreConnected(valid, account, direction, sa);
    }
    identities := IdentitiesOf(allowed);
  }

  /** The identities of the accounts, in an arbitrary order. */
  method IdentitiesOf(accounts: set<K8sServiceAccount>) returns (identities: seq<ServiceIdentity>)
    ensures forall x :: x in identities <==>
              exists sa: K8sServiceAccount :: sa.ToServiceIdentity() == x && sa in accounts
  {
    identities := [];
    var rest := accounts;
    while rest != {}
      invariant rest <= accounts
      invariant forall x :: x in identities <==>
                  exists sa: K8sServiceAccount :: sa.ToServiceIdentity() == x && sa in accounts - rest
    {
      var sa :| sa in rest;
      rest := rest - {sa};
      identities := identities + [sa.ToServiceIdentity()];
    }
  }

  // ---------------------------------------------------------------------------
  // Duality

  /** Kubernetes namespaces have no dots, but service account names may have some. */
  ghost predicate DotFreeNamespaces(targets: seq<TrafficTarget>) {
    forall t <- targets :: '.' !in t.destination.namespace && forall s <- t.sources :: '.' !in s.namespace
  }

  ghost predicate DotFreeAccounts(targets: seq<TrafficTarget>) {
    forall t <- targets :: DotFree(t.destination.Account()) && forall s <- t.sources :: DotFree(s.Account())
  }

  /** An identity is listed exactly when a TrafficTarget connects the account that is printed so. */
  lemma InListIff(targets: seq<TrafficTarget>, si: ServiceIdentity, direction: Direction, other: ServiceIdentity)
    requires DotFreeNamespaces(targets) && '.' in si
    ensures InList(targets, si, direction, other) <==>
            '.' in other && ConnectsTowards(targets, ToK8sServiceAccount(si), direction, PrintedAccount(other))
  {
    if InList(targets, si, direction, other) {
      var sa: K8sServiceAccount :|
        sa.ToServiceIdentity() == other && ConnectsTowards(targets, ToK8sServiceAccount(si), direction, sa);
      assert other[|sa.name|] == '.';
      PrintedAccountIff(sa, other);
    }
    if '.' in other {
      PrintedAccountIff(PrintedAccount(other), other);
    }
  }

  /** Duality, and exactly when it holds: each list reads its own identity as an account but prints the others, so the
      two lists agree just when the TrafficTargets connect both mixed pairs or neither. For canonical identities these
      pairs are the same. */
  lemma DualityIff(targets: seq<TrafficTarget>, upstream: ServiceIdentity, downstream: ServiceIdentity)
    requires DotFreeNamespaces(targets) && '.' in upstream && '.' in downstream
    ensures (InList(targets, upstream, Inbound, downstream) <==> InList(targets, downstream, Outbound, upstream)) <==>
            (Connects(targets, PrintedAccount(downstream), ToK8sServiceAccount(upstream)) <==>
             Connects(targets, ToK8sServiceAccount(downstream), PrintedAccount(upstream)))
    ensures Canonical(upstream) && Canonical(downstream) ==>
            (InList(targets, upstream, Inbound, downstream) <==> InList(targets, downstream, Outbound, upstream))
  {
    InListIff(targets, upstream, Inbound, downstream);
    InListIff(targets, downstream, Outbound, upstream);
    CanonicalIff(upstream);
    CanonicalIff(downstream);
  }

  /** When no account has dots, duality fails just for identities of which one is canonical and the other is not, if a
      TrafficTarget connects the accounts they are read as. */
  lemma DotFreeDualityIff(targets: seq<TrafficTarget>, upstream: ServiceIdentity, downstream: ServiceIdentity)
    requires DotFreeAccounts(targets) && '.' in upstream && '.' in downstream
    ensures (InList(targets, upstream, Inbound, downstream) <==> InList(targets, downstream, Outbound, upstream)) <==>
            ((Canonical(upstream) <==> Canonical(downstream)) ||
             !Connects(targets, ToK8sServiceAccount(downstream), ToK8sServiceAccount(upstream)))
  {
    DualityIff(targets, upstream, downstream);
    ConnectedIsCanonical(targets, upstream);
    ConnectedIsCanonical(targets, downstream);
  }

  /** Only canonical identities are printed for dot-free accounts. */
  lemma ConnectedIsCanonical(targets: seq<TrafficTarget>, si: ServiceIdentity)
    requires DotFreeAccounts(targets) && '.' in si
    ensures Canonical(si) <==> ToK8sServiceAccount(si) == PrintedAccount(si)
    ensures forall other :: Connects(targets, PrintedAccount(si), other) ==> Canonical(si)
    ensures forall other :: Connects(targets, other, PrintedAccount(si)) ==> Canonical(si)
  {
    CanonicalIff(si);
    PrintedAccountIff(PrintedAccount(si), si);
    AccountRoundTrip(PrintedAccount(si));
  }

  /** A TrafficTarget between two accounts. */
  function Between(source: K8sServiceAccount, destination: K8sServiceAccount, rule: string): TrafficTarget {
    TrafficTarget(
      "", destination.namespace, Subject(SERVICE_ACCOUNT_KIND, destination.name, destination.namespace),
      [Subject(SERVICE_ACCOUNT_KIND, source.name, source.namespace)], [TargetRule(HTTP_ROUTE_GROUP_KIND, rule, [])])
  }

  /** What follows the namespace is ignored. */
  lemma QualifiedIsReadAsAccount(account: K8sServiceAccount, suffix: string)
    requires DotFree(account)
    ensures var si := account.ToServiceIdentity() + "." + suffix;
      '.' in si && ToK8sServiceAccount(si) == account && !Canonical(si)
  {
    var si := account.ToServiceIdentity() + "." + suffix;
    assert si == account.name + ['.'] + (account.namespace + ['.'] + suffix);
    assert si[|account.name|] == '.';
    SplitHead(account.name, '.', account.namespace + ['.'] + suffix);
    SplitHead(account.namespace, '.', suffix);
    assert |si| > |account.ToServiceIdentity()|;
  }

  lemma BetweenConnects(source: K8sServiceAccount, destination: K8sServiceAccount, rule: string)
    ensures forall a, b :: Connects([Between(source, destination, rule)], a, b) <==> a == source && b == destination
  {
    var t := Between(source, destination, rule);
    assert t.sources[0].Account() == source && t.sources[0] in t.sources;
    assert [t][0] in [t];
  }

  /** An identity with anything after the namespace is read as the account before it, and so breaks duality. */
  lemma QualifiedIdentityBreaksDuality(source: K8sServiceAccount, destination: K8sServiceAccount, suffix: string,
                                       rule: string)
    requires DotFree(source) && DotFree(destination)
    ensures var targets := [Between(source, destination, rule)];
      var upstream := destination.ToServiceIdentity() + "." + suffix;
      var downstream := source.ToServiceIdentity();
      && '.' in upstream && '.' in downstream && DotFreeAccounts(targets)
      && InList(targets, upstream, Inbound, downstream) && !InList(targets, downstream, Outbound, upstream)
  {
    var targets := [Between(source, destination, rule)];
    var upstream, downstream := destination.ToServiceIdentity() + "." + suffix, source.ToServiceIdentity();
    BetweenConnects(source, destination, rule);
    QualifiedIsReadAsAccount(destination, suffix);
    CanonicalIff(upstream);
    AccountRoundTrip(source);
    PrintedAccountIff(source, downstream);
    InListIff(targets, upstream, Inbound, downstream);
    InListIff(targets, downstream, Outbound, upstream);
  }

  /** A service account with a dot in its name is listed as a source, but its own list of destinations is empty. */
  lemma DottedAccountBreaksDuality(source: K8sServiceAccount, destination: K8sServiceAccount, rule: string)
    requires '.' in source.name && '.' !in source.namespace && DotFree(destination)
    ensures var targets := [Between(source, destination, rule)];
      var upstream, downstream := destination.ToServiceIdentity(), source.ToServiceIdentity();
      && '.' in upstream && '.' in downstream && DotFreeNamespaces(targets)
      && InList(targets, upstream, Inbound, downstream)
      && forall other :: !InList(targets, downstream, Outbound, other)
  {
    var targets := [Between(source, destination, rule)];
    var upstream, downstream := destination.ToServiceIdentity(), source.ToServiceIdentity();
    BetweenConnects(source, destination, rule);
    AccountRoundTrip(source);
    AccountRoundTrip(destination);
    PrintedAccountIff(source, downstream);
    InListIff(targets, upstream, Inbound, downstream);
    forall other { InListIff(targets, downstream, Outbound, other); }
  }
}
