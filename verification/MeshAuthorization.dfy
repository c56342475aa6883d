/** Rotation and access control together: what a certificate in use is authorized to do. */
module MeshAuthorization {
  import opened Wrappers
  import opened Certificates
  import opened Identity
  import opened InboundCatalog
  import opened Issuance
  import opened MeshRootCertificates
  import opened Reconciler
  import opened RotationProtocol
  import RouteGroups
  import opened Smi
  import opened TrafficPolicy

  /** The TrafficTarget lets its sources use the route at the destination. */
  ghost predicate Grants(t: TrafficTarget, destination: K8sServiceAccount, c: Context, m: HTTPRouteMatch) {
    && IsEffective(t) && IsFor(t, Some(destination))
    && RouteGroups.Names(c.groups, t.rules, t.namespace, m)
  }

  /** The context of a controller in some state of the mesh. */
  predicate IsContextOf(c: Context, s: State, controller: nat) {
    && controller in s.nodes && Ready(s.nodes[controller].issuers)
    && c.info == GetIssuersInfo(s.nodes[controller].issuers)
  }

  /** End to end: after any run of rotations, at any controller, a certificate in use that was issued for a source of a
      TrafficTarget presents a principal that is authorized for the routes of the TrafficTarget, if the MRCs in use
      print the account. */
  lemma SourcesStayAuthorized(s: State, run: seq<Action>, h: Held, controller: nat, source: Subject, t: TrafficTarget,
                              targets: seq<TrafficTarget>, destination: K8sServiceAccount, c: Context,
                              m: HTTPRouteMatch)
    requires Init(s) && IsRun(s, run) && InUseBySome(After(s, run), h)
    requires AllPrint(After(s, run).prev, source.Account()) && AllPrint(After(s, run).cur, source.Account())
    requires IsContextOf(c, After(s, run), controller)
    requires t in targets && source in t.sources && RequestedFor(h, source.Account()) && Grants(t, destination, c, m)
    ensures Authorized(targets, destination, c, RouteFor(m, c.cluster, c.setting), PresentedPrincipal(h.cert))
  {
    var accounts := Accounts(t.sources);
    var i :| 0 <= i < |t.sources| && t.sources[i] == source;
    assert accounts[i] == source.Account();
    AuthorizationContinuity(s, run, h, controller, accounts, source.Account());
    HasPrincipalIff(t, c.info, PresentedPrincipal(h.cert));
    RateLimitIff(m, c.setting, RateLimitOf(m, c.setting));
  }

  /** And exactly then: for a TrafficTarget with this source alone, the certificate is authorized if and only if its
      signer prints the account. */
  lemma SourceIsAuthorizedIff(s: State, run: seq<Action>, h: Held, controller: nat, source: Subject, t: TrafficTarget,
                              destination: K8sServiceAccount, c: Context, m: HTTPRouteMatch)
    requires Init(s) && IsRun(s, run) && InUseBySome(After(s, run), h)
    requires IsContextOf(c, After(s, run), controller)
    requires t.sources == [source] && RequestedFor(h, source.Account()) && SlashFree(source.Account())
    requires Grants(t, destination, c, m)
    ensures var signer := SignerOf(After(s, run).prev, After(s, run).cur, h.cert);
            && signer.Some?
            && (Authorized([t], destination, c, RouteFor(m, c.cluster, c.setting), PresentedPrincipal(h.cert)) <==>
                Prints(signer.value, source.Account()))
  {
    assert Accounts(t.sources) == [source.Account()];
    AuthorizationIff(s, run, h, controller, source.Account());
    HasPrincipalIff(t, c.info, PresentedPrincipal(h.cert));
    RateLimitIff(m, c.setting, RateLimitOf(m, c.setting));
    assert [t][0] == t;
  }

  // ---------------------------------------------------------------------------
  // A certificate that is not authorized

  /** A mesh that has just been installed with one MRC. */
  function Installed(mrc: MRC): State {
    var cfg: Config := map[mrc.name := mrc];
    State(cfg, cfg, map[], map[], {})
  }

  /** The first manager starts, sees the MRC and issues a certificate. */
  function FirstIssuance(mrc: MRC, o: IssueOptions, validity: Validity, now: int): seq<Action> {
    [StartManager(0), HandleEvent(0, [mrc], false, {}), Issue(0, o, validity, now, 0, true)]
  }

  lemma FirstCertificate(mrc: MRC, o: IssueOptions, validity: Validity, now: int) returns (h: Held)
    requires mrc.role == Active && mrc.trustDomain != ""
    ensures var s, run := Installed(mrc), FirstIssuance(mrc, o, validity, now);
            && Init(s) && IsRun(s, run) && InUseBySome(After(s, run), h) && h.request == o
            && After(s, run).cur == s.cur && After(s, run).prev == s.cur && h.cert.signingIssuerID == mrc.name
            && 0 in After(s, run).nodes && Ready(After(s, run).nodes[0].issuers)
  {
    var s, run := Installed(mrc), FirstIssuance(mrc, o, validity, now);
    InstalledIsInit(mrc);
    var ready := Next(Next(s, run[0]), run[1]);
    assert ready == s.(nodes := map[0 := Node(Issuers(Some(IssuerOf(mrc)), Some(IssuerOf(mrc))), map[], true)]);
    h := HandedOut(ready, 0, o, validity, now, 0);
    ThreeSteps(s, run[0], run[1], run[2]);
    assert After(s, run).held[(0, o.commonNamePrefix)] == h;
  }

  lemma InstalledIsInit(mrc: MRC)
    requires mrc.role == Active && mrc.trustDomain != ""
    ensures Init(Installed(mrc)) && IsListing([mrc], Installed(mrc).cur)
    ensures HandleMRCEvent(NO_ISSUERS, [mrc], {}) == (Issuers(Some(IssuerOf(mrc)), Some(IssuerOf(mrc))), None)
  {
    assert PermittedNames(Installed(mrc).cur, mrc.name, mrc.name) by {
      assert InUse(Installed(mrc).cur) == {mrc.name};
    }
    assert [mrc][0] == mrc && [mrc][1..] == [];
    assert OnlyInUse([mrc]) == [mrc];
  }

  lemma ThreeSteps(s: State, a: Action, b: Action, c: Action)
    requires Enabled(s, a) && Enabled(Next(s, a), b) && Enabled(Next(Next(s, a), b), c)
    ensures IsRun(s, [a, b, c]) && After(s, [a, b, c]) == Next(Next(Next(s, a), b), c)
  {
    var t := Next(Next(s, a), b);
    assert [a, b, c][1..] == [b, c] && [b, c][1..] == [c] && [c][1..] == [];
    assert IsRun(t, [c]) && After(t, [c]) == Next(t, c);
    assert IsRun(Next(s, a), [b, c]) && After(Next(s, a), [b, c]) == Next(t, c);
  }

  /** Whatever MRC and account do not fit together: some run puts a certificate in use that the account's own
      TrafficTargets do not allow. */
  lemma UnprintedAccountIsShutOut(mrc: MRC, sa: K8sServiceAccount, validity: Validity, now: int) returns (h: Held)
    requires mrc.role == Active && mrc.trustDomain != "" && !Prints(mrc, sa) && SlashFree(sa)
    ensures var s := Installed(mrc);
            var run := FirstIssuance(mrc, ForServiceIdentity(sa.ToServiceIdentity()), validity, now);
            && Init(s) && IsRun(s, run) && InUseBySome(After(s, run), h) && RequestedFor(h, sa)
            && 0 in After(s, run).nodes && Ready(After(s, run).nodes[0].issuers)
            && !Allows(After(s, run).nodes[0].issuers, h, [sa])
  {
    var o := ForServiceIdentity(sa.ToServiceIdentity());
    h := FirstCertificate(mrc, o, validity, now);
    AuthorizationIff(Installed(mrc), FirstIssuance(mrc, o, validity, now), h, 0, sa);
  }

  /** For example, the account `a` in the namespace `b`, in a SPIFFE mesh with the trust domain `b`. */
  lemma NamespaceLikeTrustDomainIsShutOut(provider: Provider, validity: Validity, now: int) returns (h: Held)
    ensures var mrc, sa := MRC("mrc", Active, "b", true, provider), K8sServiceAccount("b", "a");
            var s := Installed(mrc);
            var run := FirstIssuance(mrc, ForServiceIdentity(sa.ToServiceIdentity()), validity, now);
            && Init(s) && IsRun(s, run) && InUseBySome(After(s, run), h) && RequestedFor(h, sa)
            && 0 in After(s, run).nodes && Ready(After(s, run).nodes[0].issuers)
            && !Allows(After(s, run).nodes[0].issuers, h, [sa])
  {
    var mrc, sa := MRC("mrc", Active, "b", true, provider), K8sServiceAccount("b", "a");
    assert sa.ToServiceIdentity() == "a.b" && "a.b"[0] == 'a' && "a.b"[1..] == ".b";
    h := UnprintedAccountIsShutOut(mrc, sa, validity, now);
  }
}
