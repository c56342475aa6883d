/** Root-certificate rotation as a transition system: one shared MRC configuration, any number of certificate managers
    that lag, restart and list MRCs in any order, and the certificates they have handed out. */
module RotationProtocol {
  import opened Wrappers
  import opened Identity
  import opened Certificates
  import opened MeshRootCertificates
  import opened Reconciler
  import opened Issuance
  import opened Principals
  import opened Webhook

  /** A manager. `seen` tells whether it has handled an event that listed the current configuration. */
  datatype Node = Node(issuers: Issuers, cache: map<string, Certificate>, seen: bool)

  /** A certificate in use, the request it answers, and whether its key went through issuance after its manager had seen
      the current configuration. It stays in use when its manager restarts. */
  datatype Held = Held(cert: Certificate, request: IssueOptions, current: bool)

  /** `prev` is the configuration before the last change; a lagging manager may still list it. `replaced` are the
      certificates that have been replaced or released, but that some proxy still uses. */
  datatype State = State(
    prev: Config, cur: Config, nodes: map<nat, Node>, held: map<(nat, string), Held>, replaced: set<Held>)

  datatype Action =
    | ChangeMRC(list: seq<MRC>, change: Change)
    | DeleteMRC(name: string)
    | StartManager(node: nat)
    | HandleEvent(node: nat, list: seq<MRC>, stale: bool, down: set<string>)
    | Issue(node: nat, options: IssueOptions, validity: Validity, now: int, noise: int, up: bool)
    | Release(node: nat, key: string)
    | Fetch(outdated: Held)

  /** Every manager has handled the last change and has taken all its certificates through issuance since, and the
      proxies have fetched what they were given. */
  ghost predicate Settled(s: State) {
    && (forall n :: n in s.nodes ==> s.nodes[n].seen)
    && (forall h :: h in s.held ==> s.held[h].current)
    && s.replaced == {}
  }

  /** What can happen at all: the webhook does not know whether the mesh has settled. */
  ghost predicate Possible(s: State, a: Action) {
    match a
    case ChangeMRC(list, change) => IsListing(list, s.cur) && Admitted(s.cur, list, change)
    case DeleteMRC(name) => name in s.cur && s.cur[name].role == Inactive
    case StartManager(_) => true
    case HandleEvent(n, list, stale, _) =>
      n in s.nodes && if stale then !s.nodes[n].seen && IsListing(list, s.prev) else IsListing(list, s.cur)
    case Issue(n, _, _, _, _, _) => n in s.nodes && Ready(s.nodes[n].issuers)
    case Release(n, _) => n in s.nodes
    case Fetch(outdated) => outdated in s.replaced
  }

  /** The protocol: a change waits until the mesh has settled. */
  ghost predicate Enabled(s: State, a: Action) {
    Possible(s, a) && (a.ChangeMRC? ==> Settled(s))
  }

  function Outdated(held: map<(nat, string), Held>): map<(nat, string), Held> {
    map h | h in held :: held[h].(current := false)
  }

  function Unseen(nodes: map<nat, Node>): map<nat, Node> {
    map n | n in nodes :: nodes[n].(seen := false)
  }

  /** The certificate that its proxy goes on using after another one, or none, has taken its place. */
  function Displaced(held: map<(nat, string), Held>, key: (nat, string), next: Option<Certificate>): set<Held> {
    if key in held && next != Some(held[key].cert) then {held[key]} else {}
  }

  /** The state after node `n` has stored a certificate in its cache and handed it out. */
  function Store(s: State, n: nat, key: string, h: Held): State
    requires n in s.nodes
  {
    s.(nodes := s.nodes[n := s.nodes[n].(cache := s.nodes[n].cache[key := h.cert])], held := s.held[(n, key) := h],
       replaced := s.replaced + Displaced(s.held, (n, key), Some(h.cert)))
  }

  predicate ServedFromCache(node: Node, o: IssueOptions, validity: Validity, now: int, noise: int)
    requires Ready(node.issuers)
  {
    var key := o.commonNamePrefix;
    key in node.cache && !ShouldRotate(node.cache[key], node.issuers, validity, now, noise)
  }

  /** What a successful issuance hands out: the cached certificate, which still answers the request it was issued for,
      or a new one. */
  function HandedOut(s: State, n: nat, o: IssueOptions, validity: Validity, now: int, noise: int): Held
    requires n in s.nodes && Ready(s.nodes[n].issuers)
  {
    var node, key := s.nodes[n], (n, o.commonNamePrefix);
    if ServedFromCache(node, o, validity, now, noise)
    then Held(node.cache[key.1], if key in s.held then s.held[key].request else o, node.seen)
    else Held(NewCertificate(o, node.issuers, validity, now), o, node.seen)
  }

  /** The protocol's issuance step is the manager's: the same cache and the same certificate. */
  lemma HandedOutIsIssued(s: State, n: nat, o: IssueOptions, validity: Validity, now: int, noise: int, up: bool)
    requires n in s.nodes && Ready(s.nodes[n].issuers)
    ensures var issued := IssueCertificate(s.nodes[n].cache, o, s.nodes[n].issuers, validity, now, noise, up);
            var next := Next(s, Issue(n, o, validity, now, noise, up));
            var key := (n, o.commonNamePrefix);
            && (issued.result.Some? ==> key in next.held && next.held[key].cert == issued.result.value)
            && (issued.result.None? ==> next == s)
            && next.nodes[n].cache == issued.cache
  {
    var node := s.nodes[n];
    if ServedFromCache(node, o, validity, now, noise) {
      assert node.cache[o.commonNamePrefix := node.cache[o.commonNamePrefix]] == node.cache;
    }
  }

  function Next(s: State, a: Action): State
    requires Possible(s, a)
  {
    match a
    case ChangeMRC(_, change) =>
      State(s.cur, Apply(s.cur, change), Unseen(s.nodes), Outdated(s.held), s.replaced)
    case DeleteMRC(name) =>
      s.(cur := s.cur - {name})
    case StartManager(n) =>
      s.(nodes := s.nodes[n := Node(NO_ISSUERS, map[], false)])
    case HandleEvent(n, list, stale, down) =>
      var (issuers, err) := HandleMRCEvent(s.nodes[n].issuers, list, down);
      s.(nodes := s.nodes[n := s.nodes[n].(issuers := issuers, seen := s.nodes[n].seen || (!stale && err.None?))])
    case Issue(n, o, validity, now, noise, up) =>
      if up || ServedFromCache(s.nodes[n], o, validity, now, noise)
      then Store(s, n, o.commonNamePrefix, HandedOut(s, n, o, validity, now, noise))
      else s
    case Release(n, key) =>
      s.(nodes := s.nodes[n := s.nodes[n].(cache := s.nodes[n].cache - {key})], held := s.held - {(n, key)},
         replaced := s.replaced + Displaced(s.held, (n, key), None))
    case Fetch(outdated) =>
      s.(replaced := s.replaced - {outdated})
  }

  /** Some proxy uses the certificate. */
  ghost predicate InUseBySome(s: State, h: Held) {
    h in s.replaced || exists key :: key in s.held && s.held[key] == h
  }

  /** A certificate goes out of use only when its proxy fetches another one. */
  lemma OnlyFetchRetires(s: State, a: Action, h: Held)
    requires Possible(s, a) && InUseBySome(s, h) && a != Fetch(h)
    ensures exists k :: InUseBySome(Next(s, a), k) && k.cert == h.cert
  {
    var next := Next(s, a);
    if h in s.replaced {
      assert InUseBySome(next, h);
    } else {
      var key :| key in s.held && s.held[key] == h;
      if key in next.held && next.held[key].cert == h.cert {
        assert InUseBySome(next, next.held[key]);
      } else {
        assert h in next.replaced;
        assert InUseBySome(next, h);
      }
    }
  }

  /** And then it does: once it is released and its proxy has fetched, it is out of use, unless it is also in use under
      another key. */
  lemma FetchRetires(s: State, n: nat, key: string)
    requires n in s.nodes && (n, key) in s.held
    requires forall k :: k in s.held && k != (n, key) ==> s.held[k] != s.held[(n, key)]
    ensures var h, released := s.held[(n, key)], Next(s, Release(n, key));
            h in released.replaced && !InUseBySome(Next(released, Fetch(h)), h)
  {
  }

  // ---------------------------------------------------------------------------
  // The invariant

  predicate Complete(cfg: Config) {
    forall n :: n in cfg ==> cfg[n].trustDomain != ""
  }

  predicate SameButForRole(m: MRC, k: MRC) {
    m == k.(role := m.role)
  }

  /** MRCs that occur in both configurations differ at most in their roles. */
  predicate SameSettings(a: Config, b: Config) {
    forall n :: n in a && n in b ==> SameButForRole(a[n], b[n])
  }

  /** Whoever signs under one configuration is known, as signer or validator, under the other. */
  ghost predicate Bridged(a: Config, b: Config) {
    && SameSettings(a, b)
    && forall s, v, s', v' :: PermittedNames(a, s, v) && PermittedNames(b, s', v') ==> s in {s', v'} && s' in {s, v}
  }

  /** The certificate answers the request: the one MRC signed it and the other validates, and it carries their names and
      roots. */
  predicate Answers(c: Certificate, o: IssueOptions, signer: MRC, validator: MRC) {
    var full := o.(trustDomain := signer.trustDomain, spiffeEnabled := signer.spiffeEnabled);
    && c.signingIssuerID == signer.name && c.validatingIssuerID == validator.name
    && HasRoots(c, signer, validator)
    && c.commonName == CommonName(full)
    && c.uriSan == UrlString(UriSan(full))
  }

  /** The certificate was signed with the root of the one MRC and trusts that root and the other's. */
  predicate HasRoots(c: Certificate, signer: MRC, validator: MRC) {
    && c.issuingCA == signer.provider.root
    && c.trustedCAs ==
       if validator.name != signer.name then [signer.provider.root, validator.provider.root] else [signer.provider.root]
  }

  /** The certificate was issued under a pair that the configuration permits. */
  predicate IssuedUnder(cfg: Config, h: Held) {
    var s, v := h.cert.signingIssuerID, h.cert.validatingIssuerID;
    PermittedNames(cfg, s, v) && v in cfg && Answers(h.cert, h.request, cfg[s], cfg[v])
  }

  predicate NodeOk(prev: Config, cur: Config, node: Node) {
    && (node.issuers == NO_ISSUERS || Permitted(prev, node.issuers) || Permitted(cur, node.issuers))
    && (node.seen ==> Permitted(cur, node.issuers))
  }

  predicate HeldOk(prev: Config, cur: Config, h: Held) {
    && (IssuedUnder(prev, h) || IssuedUnder(cur, h))
    && (h.current ==> IssuedUnder(cur, h))
  }

  /** Whatever a manager has cached is in use. */
  predicate CacheInUse(n: nat, cache: map<string, Certificate>, held: map<(nat, string), Held>) {
    forall key :: key in cache ==> (n, key) in held && held[(n, key)].cert == cache[key]
  }

  ghost predicate ConfigsOk(prev: Config, cur: Config) {
    ValidConfig(prev) && ValidConfig(cur) && Complete(prev) && Complete(cur) && Bridged(prev, cur)
  }

  ghost predicate NodesOk(prev: Config, cur: Config, nodes: map<nat, Node>) {
    forall n :: n in nodes ==> NodeOk(prev, cur, nodes[n])
  }

  ghost predicate CachesInUse(nodes: map<nat, Node>, held: map<(nat, string), Held>) {
    forall n :: n in nodes ==> CacheInUse(n, nodes[n].cache, held)
  }

  ghost predicate AllHeldOk(prev: Config, cur: Config, held: map<(nat, string), Held>) {
    forall h :: h in held ==> HeldOk(prev, cur, held[h])
  }

  /** Every certificate in use has a manager to renew it, under the key of its request. */
  ghost predicate AllHaveManagers(nodes: map<nat, Node>, held: map<(nat, string), Held>) {
    forall h :: h in held ==> h.0 in nodes && held[h].request.commonNamePrefix == h.1
  }

  ghost predicate AllReplacedOk(prev: Config, cur: Config, replaced: set<Held>) {
    forall h <- replaced :: HeldOk(prev, cur, h)
  }

  ghost predicate Inv(s: State) {
    && ConfigsOk(s.prev, s.cur)
    && NodesOk(s.prev, s.cur, s.nodes)
    && CachesInUse(s.nodes, s.held)
    && AllHeldOk(s.prev, s.cur, s.held)
    && AllReplacedOk(s.prev, s.cur, s.replaced)
    && AllHaveManagers(s.nodes, s.held)
  }

  lemma InUseIsOk(s: State, h: Held)
    requires Inv(s) && InUseBySome(s, h)
    ensures HeldOk(s.prev, s.cur, h)
  {
    if h !in s.replaced {
      var key :| key in s.held && s.held[key] == h;
      assert HeldOk(s.prev, s.cur, s.held[key]);
    }
  }

  lemma BridgedToItself(cfg: Config)
    ensures Bridged(cfg, cfg)
  {
  }

  /** Every admitted change is a bridge: this is what the webhook's role discipline is for. */
  lemma AdmittedChangeBridges(cfg: Config, list: seq<MRC>, change: Change)
    requires ValidConfig(cfg) && IsListing(list, cfg) && Admitted(cfg, list, change)
    ensures Bridged(cfg, Apply(cfg, change))
  {
    match change {
      case Update(m) => UpdateKeepsActiveInUse(cfg, list, m);
      case Create(m) => CreateIntoValidConfig(cfg, list, m);
    }
    ActiveStaysInUse(cfg, change.mrc);
  }

  lemma UpdateKeepsActiveInUse(cfg: Config, list: seq<MRC>, m: MRC)
    requires IsListing(list, cfg) && m.name in cfg && Admitted(cfg, list, Update(m))
    ensures SameButForRole(m, cfg[m.name])
    ensures cfg[m.name].role == Active ==> m.role != Inactive
    ensures m.role == Active ==> cfg[m.name].role != Inactive
  {
    UpdateAdmittedIff(cfg, list, m);
  }

  /** If an MRC keeps its settings, and is in use on both sides wherever it is Active on one, then the configurations
      bridge. */
  lemma ActiveStaysInUse(cfg: Config, m: MRC)
    requires m.name in cfg ==> SameButForRole(m, cfg[m.name])
    requires m.name in cfg && cfg[m.name].role == Active ==> m.role != Inactive
    requires m.role == Active ==> m.name in cfg && cfg[m.name].role != Inactive
    ensures Bridged(cfg, cfg[m.name := m])
  {
    var next: Config := cfg[m.name := m];
    forall s, v, s', v' | PermittedNames(cfg, s, v) && PermittedNames(next, s', v')
      ensures s in {s', v'} && s' in {s, v}
    {
      assert s in InUse(next) && s' in InUse(cfg);
    }
  }

  /** Two configurations that are bridged let their certificates trust each other. */
  lemma BridgedCertificatesTrust(a: Config, b: Config, h: Held, k: Held)
    requires Bridged(a, b) && IssuedUnder(a, h) && IssuedUnder(b, k)
    ensures MutuallyTrust(h.cert, k.cert)
  {
    var s, v := h.cert.signingIssuerID, h.cert.validatingIssuerID;
    var s', v' := k.cert.signingIssuerID, k.cert.validatingIssuerID;
    assert PermittedNames(a, s, v) && PermittedNames(b, s', v');
    assert s in b && s' in a;
  }

  /** And only those: with a root of its own for every MRC, certificates of two configurations trust each other exactly
      when each signer is signer or validator of the other. */
  lemma TrustIff(a: Config, b: Config, h: Held, k: Held)
    requires SameSettings(a, b) && DistinctRoots(a, b) && IssuedUnder(a, h) && IssuedUnder(b, k)
    ensures MutuallyTrust(h.cert, k.cert) <==>
            && k.cert.signingIssuerID in {h.cert.signingIssuerID, h.cert.validatingIssuerID}
            && h.cert.signingIssuerID in {k.cert.signingIssuerID, k.cert.validatingIssuerID}
  {
    TrustsIff(a, b, h, k);
    TrustsIff(b, a, k, h);
  }

  lemma TrustsIff(a: Config, b: Config, h: Held, k: Held)
    requires SameSettings(a, b) && DistinctRoots(a, b) && IssuedUnder(a, h) && IssuedUnder(b, k)
    ensures Trusts(h.cert, k.cert) <==>
            k.cert.signingIssuerID in {h.cert.signingIssuerID, h.cert.validatingIssuerID}
  {
    var s, v, signer := h.cert.signingIssuerID, h.cert.validatingIssuerID, k.cert.signingIssuerID;
    assert forall ca :: ca in h.cert.trustedCAs <==> ca == a[s].provider.root || ca == a[v].provider.root;
    assert k.cert.issuingCA == b[signer].provider.root;
  }

  predicate DistinctRoots(a: Config, b: Config) {
    forall n, m :: n in a && m in b && a[n].provider.root == b[m].provider.root ==> n == m
  }

  lemma BridgedIsSymmetric(a: Config, b: Config)
    requires Bridged(a, b)
    ensures Bridged(b, a)
  {
  }

  /** In every state that satisfies the invariant any two certificates in use trust each other. */
  lemma InvGivesTrust(s: State, h: Held, k: Held)
    requires Inv(s) && InUseBySome(s, h) && InUseBySome(s, k)
    ensures MutuallyTrust(h.cert, k.cert)
  {
    BridgedToItself(s.prev);
    BridgedToItself(s.cur);
    BridgedIsSymmetric(s.prev, s.cur);
    InUseIsOk(s, h);
    InUseIsOk(s, k);
    var a := if IssuedUnder(s.prev, h) then s.prev else s.cur;
    var b := if IssuedUnder(s.prev, k) then s.prev else s.cur;
    BridgedCertificatesTrust(a, b, h, k);
  }

  // ---------------------------------------------------------------------------
  // Every action keeps the invariant

  lemma ChangeKeepsInv(s: State, list: seq<MRC>, change: Change)
    requires Inv(s) && Enabled(s, ChangeMRC(list, change))
    ensures Inv(Next(s, ChangeMRC(list, change)))
  {
    AdmittedChangeIsSafe(s.cur, list, change);
    AdmittedChangeBridges(s.cur, list, change);
    AdmittedChangeIsComplete(s.cur, list, change);
    SettledNodesOk(s.prev, s.cur, Apply(s.cur, change), s.nodes);
    SettledHeldOk(s.prev, s.cur, Apply(s.cur, change), s.held);
    OutdatedCachesInUse(s.nodes, s.held);
  }

  lemma SettledNodesOk(prev: Config, cur: Config, next: Config, nodes: map<nat, Node>)
    requires NodesOk(prev, cur, nodes) && forall n :: n in nodes ==> nodes[n].seen
    ensures NodesOk(cur, next, Unseen(nodes))
  {
    forall n | n in nodes
      ensures NodeOk(cur, next, nodes[n].(seen := false))
    {
      assert NodeOk(prev, cur, nodes[n]);
    }
  }

  lemma SettledHeldOk(prev: Config, cur: Config, next: Config, held: map<(nat, string), Held>)
    requires AllHeldOk(prev, cur, held) && forall h :: h in held ==> held[h].current
    ensures AllHeldOk(cur, next, Outdated(held))
  {
    forall h | h in held
      ensures HeldOk(cur, next, held[h].(current := false))
    {
      assert HeldOk(prev, cur, held[h]);
    }
  }

  lemma OutdatedCachesInUse(nodes: map<nat, Node>, held: map<(nat, string), Held>)
    requires CachesInUse(nodes, held)
    ensures CachesInUse(Unseen(nodes), Outdated(held))
  {
    forall n | n in nodes
      ensures CacheInUse(n, nodes[n].cache, Outdated(held))
    {
      assert CacheInUse(n, nodes[n].cache, held);
    }
  }

  lemma AdmittedChangeIsComplete(cfg: Config, list: seq<MRC>, change: Change)
    requires Complete(cfg) && Admitted(cfg, list, change)
    ensures Complete(Apply(cfg, change))
  {
  }

  lemma DeleteKeepsInUse(cfg: Config, name: string)
    requires name in cfg && cfg[name].role == Inactive
    ensures forall s, v :: PermittedNames(cfg, s, v) <==> PermittedNames(cfg - {name}, s, v)
    ensures ValidConfig(cfg) <==> ValidConfig(cfg - {name})
  {
    assert InUse(cfg) == InUse(cfg - {name});
    assert forall s, v :: PermittedNames(cfg, s, v) <==> PermittedNames(cfg - {name}, s, v);
  }

  lemma DeleteKeepsInv(s: State, name: string)
    requires Inv(s) && Enabled(s, DeleteMRC(name))
    ensures Inv(Next(s, DeleteMRC(name)))
  {
    var cur' := s.cur - {name};
    DeleteKeepsInUse(s.cur, name);
    forall n | n in s.nodes
      ensures NodeOk(s.prev, cur', s.nodes[n])
    {
      assert NodeOk(s.prev, s.cur, s.nodes[n]);
      DeleteKeepsPermitted(s.cur, name, s.nodes[n].issuers);
    }
    forall h | h in s.held
      ensures HeldOk(s.prev, cur', s.held[h])
    {
      assert HeldOk(s.prev, s.cur, s.held[h]);
      DeleteKeepsIssued(s.cur, name, s.held[h]);
    }
    forall h | h in s.replaced
      ensures HeldOk(s.prev, cur', h)
    {
      DeleteKeepsIssued(s.cur, name, h);
    }
  }

  lemma DeleteKeepsPermitted(cfg: Config, name: string, issuers: Issuers)
    requires name in cfg && cfg[name].role == Inactive
    ensures Permitted(cfg, issuers) ==> Permitted(cfg - {name}, issuers)
  {
    DeleteKeepsInUse(cfg, name);
    if Permitted(cfg, issuers) {
      assert issuers.signing.value.id in InUse(cfg) && issuers.validating.value.id in InUse(cfg);
    }
  }

  lemma DeleteKeepsIssued(cfg: Config, name: string, h: Held)
    requires name in cfg && cfg[name].role == Inactive
    ensures IssuedUnder(cfg, h) ==> IssuedUnder(cfg - {name}, h)
  {
    if IssuedUnder(cfg, h) {
      DeleteKeepsInUse(cfg, name);
      assert h.cert.signingIssuerID in InUse(cfg) && h.cert.validatingIssuerID in InUse(cfg);
    }
  }

  lemma HandleKeepsNodeOk(prev: Config, cur: Config, node: Node, list: seq<MRC>, stale: bool, down: set<string>)
    requires SameSettings(prev, cur) && NodeOk(prev, cur, node)
    requires if stale then !node.seen && IsListing(list, prev) else IsListing(list, cur)
    ensures var (issuers, err) := HandleMRCEvent(node.issuers, list, down);
            NodeOk(prev, cur, node.(issuers := issuers, seen := node.seen || (!stale && err.None?)))
  {
    EventKeepsIssuersFaithful(node.issuers, list, if stale then prev else cur, down);
  }

  lemma HandleKeepsInv(s: State, a: Action)
    requires Inv(s) && a.HandleEvent? && Enabled(s, a)
    ensures Inv(Next(s, a))
  {
    assert NodeOk(s.prev, s.cur, s.nodes[a.node]);
    HandleKeepsNodeOk(s.prev, s.cur, s.nodes[a.node], a.list, a.stale, a.down);
    var (issuers, err) := HandleMRCEvent(s.nodes[a.node].issuers, a.list, a.down);
    ReplaceNode(s, a.node, s.nodes[a.node].(issuers := issuers, seen := s.nodes[a.node].seen ||
      (!a.stale && err.None?)));
  }

  /** A node may be replaced by one that is in order and has cached nothing more. */
  lemma ReplaceNode(s: State, n: nat, node: Node)
    requires Inv(s) && NodeOk(s.prev, s.cur, node)
    requires node.cache == map[] || (n in s.nodes && node.cache == s.nodes[n].cache)
    ensures Inv(s.(nodes := s.nodes[n := node]))
  {
  }

  lemma NewCertificateIsIssuedUnder(cfg: Config, issuers: Issuers, o: IssueOptions, validity: Validity, now: int,
                                    current: bool)
    requires Permitted(cfg, issuers)
    ensures IssuedUnder(cfg, Held(NewCertificate(o, issuers, validity, now), o, current))
  {
    var s, v := issuers.signing.value, issuers.validating.value;
    assert IsIssuerOf(s, cfg[s.id]) && IsIssuerOf(v, cfg[v.id]);
  }

  /** A cached certificate whose stamps match permitted issuers was issued under the same configuration. */
  lemma ServedCertificateIsIssuedUnder(prev: Config, cur: Config, h: Held, issuers: Issuers)
    requires SameSettings(prev, cur) && HeldOk(prev, cur, h) && Permitted(cur, issuers) && StampedWith(h.cert, issuers)
    ensures IssuedUnder(cur, h)
  {
    var s, v := h.cert.signingIssuerID, h.cert.validatingIssuerID;
    if IssuedUnder(prev, h) {
      assert SameButForRole(prev[s], cur[s]) && SameButForRole(prev[v], cur[v]);
    }
  }

  /** What issuance hands out is in order, whether it comes from the cache or is new. */
  lemma IssuedIsHeldOk(prev: Config, cur: Config, node: Node, before: Option<Held>, o: IssueOptions, validity: Validity,
                       now: int, noise: int)
    requires SameSettings(prev, cur) && NodeOk(prev, cur, node) && Ready(node.issuers)
    requires before.Some? ==> HeldOk(prev, cur, before.value)
    requires o.commonNamePrefix in node.cache ==> before.Some? && before.value.cert == node.cache[o.commonNamePrefix]
    ensures HeldOk(prev, cur,
                   if ServedFromCache(node, o, validity, now, noise) then before.value.(current := node.seen)
                   else Held(NewCertificate(o, node.issuers, validity, now), o, node.seen))
  {
    if ServedFromCache(node, o, validity, now, noise) {
      var h := before.value.(current := node.seen);
      if node.seen {
        ServedCertificateIsIssuedUnder(prev, cur, h.(current := false), node.issuers);
      }
    } else {
      var cfg := if Permitted(cur, node.issuers) then cur else prev;
      NewCertificateIsIssuedUnder(cfg, node.issuers, o, validity, now, node.seen);
    }
  }

  lemma IssueKeepsInv(s: State, a: Action)
    requires Inv(s) && a.Issue? && Enabled(s, a)
    ensures Inv(Next(s, a))
  {
    var node := s.nodes[a.node];
    var key := (a.node, a.options.commonNamePrefix);
    var before := if key in s.held then Some(s.held[key]) else None;
    assert NodeOk(s.prev, s.cur, node) && CacheInUse(a.node, node.cache, s.held);
    IssuedIsHeldOk(s.prev, s.cur, node, before, a.options, a.validity, a.now, a.noise);
    StoreKeepsInv(s, a.node, key.1, HandedOut(s, a.node, a.options, a.validity, a.now, a.noise));
  }

  /** Storing a certificate that is in order keeps the invariant. */
  lemma StoreKeepsInv(s: State, n: nat, key: string, h: Held)
    requires Inv(s) && n in s.nodes && HeldOk(s.prev, s.cur, h) && h.request.commonNamePrefix == key
    ensures Inv(Store(s, n, key, h))
  {
    var next := Store(s, n, key, h);
    DisplacedIsOk(s, (n, key), Some(h.cert));
    assert AllHeldOk(s.prev, s.cur, next.held) && AllHaveManagers(next.nodes, next.held);
    assert NodesOk(s.prev, s.cur, next.nodes) by {
      assert NodeOk(s.prev, s.cur, s.nodes[n]);
    }
    assert CachesInUse(next.nodes, next.held) by {
      forall m | m in next.nodes
        ensures CacheInUse(m, next.nodes[m].cache, next.held)
      {
        StoreKeepsCacheInUse(m, s.nodes[m].cache, s.held, n, key, h);
      }
    }
  }

  lemma DisplacedIsOk(s: State, key: (nat, string), next: Option<Certificate>)
    requires Inv(s)
    ensures AllReplacedOk(s.prev, s.cur, s.replaced + Displaced(s.held, key, next))
  {
    assert key in s.held ==> HeldOk(s.prev, s.cur, s.held[key]);
  }

  lemma StoreKeepsCacheInUse(m: nat, cache: map<string, Certificate>, held: map<(nat, string), Held>, n: nat,
                             key: string, h: Held)
    requires CacheInUse(m, cache, held)
    ensures CacheInUse(m, if m == n then cache[key := h.cert] else cache, held[(n, key) := h])
  {
  }

  lemma ReleaseKeepsInv(s: State, n: nat, key: string)
    requires Inv(s) && n in s.nodes
    ensures Inv(Next(s, Release(n, key)))
  {
    var next := Next(s, Release(n, key));
    DisplacedIsOk(s, (n, key), None);
    assert NodesOk(s.prev, s.cur, next.nodes) by {
      assert NodeOk(s.prev, s.cur, s.nodes[n]);
    }
    assert CachesInUse(next.nodes, next.held) by {
      forall m | m in next.nodes
        ensures CacheInUse(m, next.nodes[m].cache, next.held)
      {
        ReleaseKeepsCacheInUse(m, s.nodes[m].cache, s.held, n, key);
      }
    }
  }

  lemma ReleaseKeepsCacheInUse(m: nat, cache: map<string, Certificate>, held: map<(nat, string), Held>, n: nat,
                               key: string)
    requires CacheInUse(m, cache, held)
    ensures CacheInUse(m, if m == n then cache - {key} else cache, held - {(n, key)})
  {
  }

  lemma StepKeepsInv(s: State, a: Action)
    requires Inv(s) && Enabled(s, a)
    ensures Inv(Next(s, a))
  {
    match a
    case ChangeMRC(list, change) => ChangeKeepsInv(s, list, change);
    case DeleteMRC(name) => DeleteKeepsInv(s, name);
    case StartManager(n) => ReplaceNode(s, n, Node(NO_ISSUERS, map[], false));
    case HandleEvent(_, _, _, _) => HandleKeepsInv(s, a);
    case Issue(_, _, _, _, _, _) => IssueKeepsInv(s, a);
    case Release(n, key) => ReleaseKeepsInv(s, n, key);
    case Fetch(_) =>
  }

  // ---------------------------------------------------------------------------
  // Whole runs

  /** One MRC is in use and Active, no manager has started yet, and nothing is in use. */
  ghost predicate Init(s: State) {
    && (exists n :: PermittedNames(s.cur, n, n)) && Complete(s.cur)
    && s.prev == s.cur && s.nodes == map[] && s.held == map[] && s.replaced == {}
  }

  ghost predicate IsRun(s: State, run: seq<Action>)
    decreases |run|
  {
    run == [] || (Enabled(s, run[0]) && IsRun(Next(s, run[0]), run[1..]))
  }

  ghost function After(s: State, run: seq<Action>): State
    requires IsRun(s, run)
    decreases |run|
  {
    if run == [] then s else After(Next(s, run[0]), run[1..])
  }

  lemma {:induction false} RunKeepsInv(s: State, run: seq<Action>)
    requires Inv(s) && IsRun(s, run)
    ensures Inv(After(s, run))
    decreases |run|
  {
    if run != [] {
      StepKeepsInv(s, run[0]);
      RunKeepsInv(Next(s, run[0]), run[1..]);
    }
  }

  lemma InitGivesInv(s: State)
    requires Init(s)
    ensures Inv(s)
  {
    BridgedToItself(s.cur);
  }

  /** The MRC of that name; its settings are the same in both configurations. */
  function Named(prev: Config, cur: Config, name: string): Option<MRC> {
    if name in cur then Some(cur[name]) else if name in prev then Some(prev[name]) else None
  }

  /** The certificate carries the roots of the MRCs that it names as its signer and validator. */
  predicate CarriesRoots(prev: Config, cur: Config, c: Certificate) {
    var signer, validator := Named(prev, cur, c.signingIssuerID), Named(prev, cur, c.validatingIssuerID);
    signer.Some? && validator.Some? && HasRoots(c, signer.value, validator.value)
  }

  lemma InUseCarriesRoots(s: State, h: Held)
    requires Inv(s) && InUseBySome(s, h)
    ensures CarriesRoots(s.prev, s.cur, h.cert)
  {
    InUseIsOk(s, h);
    var a := if IssuedUnder(s.cur, h) then s.cur else s.prev;
    assert IssuedUnder(a, h);
  }

  /** Rotation safety: after any run, every certificate that a proxy uses carries the roots of the MRCs it names, and
      any two of them trust each other. */
  lemma RotationSafety(s: State, run: seq<Action>)
    requires Init(s) && IsRun(s, run)
    ensures forall h :: InUseBySome(After(s, run), h) ==> CarriesRoots(After(s, run).prev, After(s, run).cur, h.cert)
    ensures forall h, k :: InUseBySome(After(s, run), h) && InUseBySome(After(s, run), k) ==>
              MutuallyTrust(h.cert, k.cert)
  {
    InitGivesInv(s);
    RunKeepsInv(s, run);
    forall h, k | InUseBySome(After(s, run), h) && InUseBySome(After(s, run), k)
      ensures MutuallyTrust(h.cert, k.cert)
    {
      InvGivesTrust(After(s, run), h, k);
    }
    forall h | InUseBySome(After(s, run), h)
      ensures CarriesRoots(After(s, run).prev, After(s, run).cur, h.cert)
    {
      InUseCarriesRoots(After(s, run), h);
    }
  }

  // ---------------------------------------------------------------------------
  // Authorization

  /** The certificate was requested for the service account. */
  predicate RequestedFor(h: Held, sa: K8sServiceAccount) {
    !h.request.fullCNProvided && h.request.commonNamePrefix == sa.ToServiceIdentity()
  }

  /** Certificates that the MRC signs for the account present the account's principal. */
  predicate Prints(mrc: MRC, sa: K8sServiceAccount) {
    var si := sa.ToServiceIdentity();
    assert si[|sa.name|] == '.';
    !(mrc.spiffeEnabled && Misprinted(si, mrc.trustDomain))
  }

  predicate AllPrint(cfg: Config, sa: K8sServiceAccount) {
    forall n <- InUse(cfg) :: Prints(cfg[n], sa)
  }

  /** What a held certificate presents, by the settings of its signer. */
  lemma PresentsIssuedNames(cfg: Config, h: Held, sa: K8sServiceAccount)
    requires IssuedUnder(cfg, h) && RequestedFor(h, sa)
    ensures var s := cfg[h.cert.signingIssuerID];
            && PresentedPrincipal(h.cert) == ServicePrincipal(sa.name, sa.namespace, s.trustDomain, s.spiffeEnabled)
            && (s.spiffeEnabled ==> PresentedPrincipal(h.cert) == UriFor(sa.ToServiceIdentity(), s.trustDomain))
  {
    var s := cfg[h.cert.signingIssuerID];
    var full := h.request.(trustDomain := s.trustDomain, spiffeEnabled := s.spiffeEnabled);
    var service :=
      ForServiceIdentity(sa.ToServiceIdentity()).(trustDomain := s.trustDomain, spiffeEnabled := s.spiffeEnabled);
    assert CommonName(full) == CommonName(service) && UriSan(full) == UriSan(service);
  }

  /** A held service certificate presents its account's principal under the trust domain of its signer exactly when the
      signer prints it. */
  lemma PresentsSignersPrincipal(cfg: Config, h: Held, sa: K8sServiceAccount)
    requires IssuedUnder(cfg, h) && RequestedFor(h, sa)
    ensures var s := cfg[h.cert.signingIssuerID];
            PresentedPrincipal(h.cert) == sa.AsPrincipal(s.trustDomain, s.spiffeEnabled) <==> Prints(s, sa)
  {
    var s := cfg[h.cert.signingIssuerID];
    PresentsIssuedNames(cfg, h, sa);
    ServicePrincipalIsExpected(sa.name, sa.namespace, s.trustDomain, s.spiffeEnabled);
  }

  /** Under bridged configurations a controller allows the signer's principal. */
  lemma BridgedControllerAllows(a: Config, b: Config, h: Held, issuers: Issuers, sources: seq<K8sServiceAccount>,
                                sa: K8sServiceAccount)
    requires Bridged(a, b) && IssuedUnder(a, h) && Permitted(b, issuers) && sa in sources
    ensures var s := a[h.cert.signingIssuerID];
            sa.AsPrincipal(s.trustDomain, s.spiffeEnabled) in AllowedPrincipals(sources, GetIssuersInfo(issuers))
  {
    var s, v := h.cert.signingIssuerID, h.cert.validatingIssuerID;
    assert PermittedNames(a, s, v) && PermittedNames(b, issuers.signing.value.id, issuers.validating.value.id);
    assert s in b && SameButForRole(a[s], b[s]);
    SourceAllowedUnderBothIssuers(sources, sa, GetIssuersInfo(issuers));
  }

  /** The configurations under which a certificate in use was issued and a controller's issuers are permitted. */
  lemma UnderBridgedConfigurations(s: State, h: Held, controller: nat) returns (a: Config, b: Config)
    requires Inv(s) && InUseBySome(s, h) && controller in s.nodes && Ready(s.nodes[controller].issuers)
    ensures Bridged(a, b) && Complete(a) && (a == s.prev || a == s.cur)
    ensures IssuedUnder(a, h) && Permitted(b, s.nodes[controller].issuers)
  {
    BridgedToItself(s.prev);
    BridgedToItself(s.cur);
    BridgedIsSymmetric(s.prev, s.cur);
    assert NodeOk(s.prev, s.cur, s.nodes[controller]);
    InUseIsOk(s, h);
    a := if IssuedUnder(s.prev, h) then s.prev else s.cur;
    b := if Permitted(s.prev, s.nodes[controller].issuers) then s.prev else s.cur;
  }

  /** The controller allows what the certificate presents. */
  predicate Allows(issuers: Issuers, h: Held, sources: seq<K8sServiceAccount>)
    requires Ready(issuers)
  {
    PresentedPrincipal(h.cert) in AllowedPrincipals(sources, GetIssuersInfo(issuers))
  }

  lemma PrintedIsAllowed(a: Config, b: Config, h: Held, signer: MRC, issuers: Issuers, sources: seq<K8sServiceAccount>,
                         sa: K8sServiceAccount)
    requires Bridged(a, b) && IssuedUnder(a, h) && Permitted(b, issuers)
    requires SameButForRole(signer, a[h.cert.signingIssuerID]) && Prints(signer, sa)
    requires RequestedFor(h, sa) && sa in sources
    ensures Allows(issuers, h, sources)
  {
    PresentsSignersPrincipal(a, h, sa);
    BridgedControllerAllows(a, b, h, issuers, sources, sa);
  }

  lemma MisprintedIsNotAllowed(a: Config, h: Held, signer: MRC, issuers: Issuers, sa: K8sServiceAccount)
    requires Complete(a) && IssuedUnder(a, h) && Ready(issuers)
    requires SameButForRole(signer, a[h.cert.signingIssuerID]) && !Prints(signer, sa)
    requires RequestedFor(h, sa) && SlashFree(sa)
    ensures !Allows(issuers, h, [sa])
  {
    PresentsIssuedNames(a, h, sa);
    TrimmedNameIsNotAllowed(sa, signer.trustDomain, GetIssuersInfo(issuers));
  }

  /** The account's identity is printed without slashes of its own. */
  predicate SlashFree(sa: K8sServiceAccount) {
    '/' !in sa.ToServiceIdentity() && !("." <= sa.ToServiceIdentity())
  }

  lemma TrimmedNameIsNotAllowed(sa: K8sServiceAccount, trustDomain: string, info: IssuerInfo)
    requires SlashFree(sa) && trustDomain != ""
    requires sa.ToServiceIdentity() != "" && Misprinted(sa.ToServiceIdentity(), trustDomain)
    ensures UriFor(sa.ToServiceIdentity(), trustDomain) !in AllowedPrincipals([sa], info)
  {
    AllowedPrincipalIff([sa], info, UriFor(sa.ToServiceIdentity(), trustDomain));
    var s, v := info.signing, info.validating;
    TrimmedNameIsNoPrincipal(sa.name, sa.namespace, trustDomain, s.trustDomain, s.spiffeEnabled);
    TrimmedNameIsNoPrincipal(sa.name, sa.namespace, trustDomain, v.trustDomain, v.spiffeEnabled);
  }

  /** The MRC that signed a certificate in use. */
  function SignerOf(prev: Config, cur: Config, c: Certificate): Option<MRC> {
    Named(prev, cur, c.signingIssuerID)
  }

  lemma SignerSettings(s: State, h: Held, a: Config)
    requires Inv(s) && InUseBySome(s, h) && (a == s.prev || a == s.cur) && IssuedUnder(a, h)
    ensures var signer := SignerOf(s.prev, s.cur, h.cert);
            signer.Some? && SameButForRole(signer.value, a[h.cert.signingIssuerID])
  {
  }

  lemma InUseSignerPrints(s: State, h: Held, sa: K8sServiceAccount)
    requires Inv(s) && InUseBySome(s, h) && AllPrint(s.prev, sa) && AllPrint(s.cur, sa)
    ensures var signer := SignerOf(s.prev, s.cur, h.cert); signer.Some? && Prints(signer.value, sa)
  {
    InUseIsOk(s, h);
    var a := if IssuedUnder(s.prev, h) then s.prev else s.cur;
    SignerSettings(s, h, a);
    assert h.cert.signingIssuerID in InUse(a);
  }

  /** Authorization continuity: after any run, the principal that a service certificate in use presents is in the set
      that any controller with issuers, lagging or not, computes for a TrafficTarget with that account among its
      sources, if the MRCs in use print the account. */
  lemma AuthorizationContinuity(s: State, run: seq<Action>, h: Held, controller: nat,
                                sources: seq<K8sServiceAccount>, sa: K8sServiceAccount)
    requires Init(s) && IsRun(s, run)
    requires InUseBySome(After(s, run), h) && RequestedFor(h, sa) && sa in sources
    requires AllPrint(After(s, run).prev, sa) && AllPrint(After(s, run).cur, sa)
    requires controller in After(s, run).nodes && Ready(After(s, run).nodes[controller].issuers)
    ensures Allows(After(s, run).nodes[controller].issuers, h, sources)
  {
    InitGivesInv(s);
    RunKeepsInv(s, run);
    var end := After(s, run);
    InUseSignerPrints(end, h, sa);
    PrintingSignerIsAllowed(end, h, controller, sources, sa);
  }

  lemma PrintingSignerIsAllowed(s: State, h: Held, controller: nat, sources: seq<K8sServiceAccount>,
                                sa: K8sServiceAccount)
    requires Inv(s) && InUseBySome(s, h) && RequestedFor(h, sa) && sa in sources
    requires SignerOf(s.prev, s.cur, h.cert).Some? && Prints(SignerOf(s.prev, s.cur, h.cert).value, sa)
    requires controller in s.nodes && Ready(s.nodes[controller].issuers)
    ensures Allows(s.nodes[controller].issuers, h, sources)
  {
    var a, b := UnderBridgedConfigurations(s, h, controller);
    SignerSettings(s, h, a);
    var signer := SignerOf(s.prev, s.cur, h.cert).value;
    PrintedIsAllowed(a, b, h, signer, s.nodes[controller].issuers, sources, sa);
  }

  /** And exactly then: with the account as the only source, its certificate is authorized if and only if its signer
      prints it. */
  lemma AuthorizationIff(s: State, run: seq<Action>, h: Held, controller: nat, sa: K8sServiceAccount)
    requires Init(s) && IsRun(s, run)
    requires InUseBySome(After(s, run), h) && RequestedFor(h, sa) && SlashFree(sa)
    requires controller in After(s, run).nodes && Ready(After(s, run).nodes[controller].issuers)
    ensures var end := After(s, run);
            var signer := SignerOf(end.prev, end.cur, h.cert);
            signer.Some? && (Allows(end.nodes[controller].issuers, h, [sa]) <==> Prints(signer.value, sa))
  {
    InitGivesInv(s);
    RunKeepsInv(s, run);
    var end := After(s, run);
    var a, b := UnderBridgedConfigurations(end, h, controller);
    SignerSettings(end, h, a);
    var signer := SignerOf(end.prev, end.cur, h.cert).value;
    if Prints(signer, sa) {
      PrintedIsAllowed(a, b, h, signer, end.nodes[controller].issuers, [sa], sa);
    } else {
      MisprintedIsNotAllowed(a, h, signer, end.nodes[controller].issuers, sa);
    }
  }
}
