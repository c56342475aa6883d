/** Rotation can always go on: the gate before each change is reachable, and a whole rotation can be completed. */
module RotationProgress {
  import opened Wrappers
  import opened Certificates
  import opened MeshRootCertificates
  import opened Reconciler
  import opened Issuance
  import opened Webhook
  import opened RotationPlan
  import opened RotationProtocol

  lemma {:induction false} ListingOf(cfg: Config, names: set<string>) returns (list: seq<MRC>)
    requires names <= cfg.Keys
    ensures DistinctNames(list)
    ensures forall m :: m in list <==> m.name in names && m == cfg[m.name]
  {
    if names == {} {
      list := [];
    } else {
      var n :| n in names;
      var rest := ListingOf(cfg, names - {n});
      list := [cfg[n]] + rest;
      forall i | 0 <= i < |rest|
        ensures rest[i].name != n
      {
        assert rest[i] in rest;
      }
    }
  }

  lemma ListingExists(cfg: Config) returns (list: seq<MRC>)
    ensures IsListing(list, cfg)
  {
    list := ListingOf(cfg, cfg.Keys);
  }

  lemma {:induction false} RunConcat(s: State, first: seq<Action>, second: seq<Action>)
    requires IsRun(s, first) && IsRun(After(s, first), second)
    ensures IsRun(s, first + second) && After(s, first + second) == After(After(s, first), second)
    decreases |first|
  {
    if first == [] {
      assert first + second == second;
    } else {
      assert (first + second)[1..] == first[1..] + second;
      RunConcat(Next(s, first[0]), first[1..], second);
    }
  }

  ghost function Lagging(s: State): set<nat> {
    set n | n in s.nodes && !s.nodes[n].seen
  }

  ghost function Stale(s: State): set<(nat, string)> {
    set h | h in s.held && !s.held[h].current
  }

  /** No manager and no certificate in use is lost or added, and each certificate answers the same request. */
  ghost predicate SameHoldings(s: State, t: State) {
    && t.nodes.Keys == s.nodes.Keys && t.held.Keys == s.held.Keys
    && forall h <- s.held :: t.held[h].request == s.held[h].request
  }

  /** A lagging manager catches up by handling one event. */
  lemma CatchUp(s: State, n: nat) returns (a: Action)
    requires Inv(s) && n in Lagging(s)
    ensures a.HandleEvent? && Enabled(s, a) && Next(s, a).cur == s.cur && SameHoldings(s, Next(s, a))
    ensures Lagging(Next(s, a)) == Lagging(s) - {n} && Stale(Next(s, a)) == Stale(s)
  {
    var list := ListingExists(s.cur);
    OneEventConverges(s.nodes[n].issuers, list, s.cur);
    a := HandleEvent(n, list, false, {});
    var (issuers, err) := HandleMRCEvent(s.nodes[n].issuers, list, {});
    SeenCatchesUp(s, n, s.nodes[n].(issuers := issuers, seen := true));
  }

  /** A proxy fetches the certificate that has replaced its own. */
  lemma FetchNew(s: State) returns (a: Action)
    requires s.replaced != {}
    ensures Enabled(s, a) && Next(s, a).cur == s.cur && SameHoldings(s, Next(s, a))
    ensures Lagging(Next(s, a)) == Lagging(s) && Stale(Next(s, a)) == Stale(s) && Next(s, a).replaced < s.replaced
  {
    var h :| h in s.replaced;
    a := Fetch(h);
  }

  lemma SeenCatchesUp(s: State, n: nat, node: Node)
    requires n in s.nodes && node.seen
    ensures var next := s.(nodes := s.nodes[n := node]);
            Lagging(next) == Lagging(s) - {n} && Stale(next) == Stale(s) && SameHoldings(s, next)
  {
  }

  /** When certificates are re-issued: any time and any validities that a mesh may have. */
  datatype Moment = Moment(validity: Validity, now: int)

  /** Once no manager lags, a stale certificate becomes current by going through issuance with its own request. */
  lemma Refresh(s: State, h: (nat, string), m: Moment) returns (a: Action)
    requires Inv(s) && Lagging(s) == {} && h in Stale(s)
    ensures a == Issue(h.0, s.held[h].request, m.validity, m.now, 0, true)
    ensures Enabled(s, a) && Next(s, a).cur == s.cur && SameHoldings(s, Next(s, a))
    ensures Lagging(Next(s, a)) == {} && Stale(Next(s, a)) == Stale(s) - {h}
  {
    var node := s.nodes[h.0];
    assert node.seen by { assert h.0 !in Lagging(s); }
    assert NodeOk(s.prev, s.cur, node);
    a := Issue(h.0, s.held[h].request, m.validity, m.now, 0, true);
    StoreRefreshes(s, h, HandedOut(s, h.0, s.held[h].request, m.validity, m.now, 0));
  }

  lemma StoreRefreshes(s: State, h: (nat, string), held: Held)
    requires h.0 in s.nodes && held.current && h in s.held && held.request == s.held[h].request
    ensures var next := Store(s, h.0, h.1, held);
            && Lagging(next) == Lagging(s) && Stale(next) == Stale(s) - {h} && next.cur == s.cur
            && SameHoldings(s, next)
  {
  }

  /** While the mesh is unsettled some action brings it closer to settling. */
  lemma SettlingStep(s: State, m: Moment) returns (a: Action)
    requires Inv(s) && !Settled(s)
    ensures Enabled(s, a) && Next(s, a).cur == s.cur && SameHoldings(s, Next(s, a))
    ensures Closer(Next(s, a), s)
  {
    if Lagging(s) != {} {
      var n :| n in Lagging(s);
      a := CatchUp(s, n);
    } else if Stale(s) != {} {
      var h :| h in Stale(s);
      a := Refresh(s, h, m);
    } else {
      NothingToDo(s);
      a := FetchNew(s);
    }
  }

  lemma NothingToDo(s: State)
    requires Lagging(s) == {} && Stale(s) == {}
    ensures Settled(s) <==> s.replaced == {}
  {
    assert forall n :: n in s.nodes ==> n !in Lagging(s);
    assert forall h :: h in s.held ==> h !in Stale(s);
  }

  /** Fewer managers lag, or as many but fewer certificates are stale, or as many but fewer proxies are behind. */
  ghost predicate Closer(t: State, s: State) {
    || Lagging(t) < Lagging(s)
    || (Lagging(t) == Lagging(s) && Stale(t) < Stale(s))
    || (Lagging(t) == Lagging(s) && Stale(t) == Stale(s) && t.replaced < s.replaced)
  }

  /** The gate is reachable: from any state of the invariant some run settles the mesh without touching the MRCs and
      without losing a certificate. */
  lemma {:induction false} SettlingRun(s: State, m: Moment) returns (run: seq<Action>)
    requires Inv(s)
    ensures IsRun(s, run) && Settled(After(s, run)) && After(s, run).cur == s.cur && Inv(After(s, run))
    ensures SameHoldings(s, After(s, run))
    decreases Lagging(s), Stale(s), s.replaced
  {
    if Settled(s) {
      run := [];
    } else {
      var a := SettlingStep(s, m);
      StepKeepsInv(s, a);
      var rest := SettlingRun(Next(s, a), m);
      run := [a] + rest;
      assert run[1..] == rest;
      SameHoldingsTransitive(s, Next(s, a), After(s, run));
    }
  }

  lemma SameHoldingsTransitive(s: State, t: State, u: State)
    requires SameHoldings(s, t) && SameHoldings(t, u)
    ensures SameHoldings(s, u)
  {
  }

  lemma ChangeKeepsHoldings(s: State, a: Action)
    requires Enabled(s, a) && a.ChangeMRC?
    ensures SameHoldings(s, Next(s, a))
  {
  }

  /** From a settled state an admitted change can be made and settled. */
  lemma ChangeAndSettle(s: State, list: seq<MRC>, change: Change, m: Moment) returns (run: seq<Action>)
    requires Inv(s) && Settled(s) && IsListing(list, s.cur) && Admitted(s.cur, list, change)
    ensures IsRun(s, run) && Inv(After(s, run)) && Settled(After(s, run)) && After(s, run).cur == Apply(s.cur, change)
    ensures SameHoldings(s, After(s, run))
  {
    var a := ChangeMRC(list, change);
    StepKeepsInv(s, a);
    ChangeKeepsHoldings(s, a);
    var settle := SettlingRun(Next(s, a), m);
    run := [a] + settle;
    assert run[1..] == settle;
    SameHoldingsTransitive(s, Next(s, a), After(s, run));
  }

  lemma PlanStep(s: State, cfg: Config, from: string, to: string, k: nat, m: Moment) returns (run: seq<Action>)
    requires Inv(s) && Settled(s) && CanStart(cfg, from, to) && k < 4 && s.cur == Stage(cfg, from, to, k)
    ensures IsRun(s, run) && Inv(After(s, run)) && Settled(After(s, run)) && SameHoldings(s, After(s, run))
    ensures After(s, run).cur == Stage(cfg, from, to, k + 1)
  {
    var list, change := PlannedChange(s.cur, cfg, from, to, k);
    run := ChangeAndSettle(s, list, change, m);
  }

  lemma PlannedChange(cur: Config, cfg: Config, from: string, to: string, k: nat)
    returns (list: seq<MRC>, change: Change)
    requires CanStart(cfg, from, to) && k < 4 && cur == Stage(cfg, from, to, k)
    ensures IsListing(list, cur) && Admitted(cur, list, change) && Apply(cur, change) == Stage(cfg, from, to, k + 1)
  {
    list := ListingExists(cur);
    PlannedUpdateIsAdmitted(cfg, from, to, k, list);
    change := AsChange(cur, Plan(from, to)[k]);
  }

  /** Some run performs the first `k` updates of the plan, each through the gate. */
  lemma {:induction false} PlanRun(s: State, from: string, to: string, k: nat, m: Moment) returns (run: seq<Action>)
    requires Inv(s) && CanStart(s.cur, from, to) && k <= 4
    ensures IsRun(s, run) && Inv(After(s, run)) && Settled(After(s, run)) && SameHoldings(s, After(s, run))
    ensures After(s, run).cur == Stage(s.cur, from, to, k)
    decreases k
  {
    if k == 0 {
      PlannedUpdate(s.cur, from, to, 0);
      run := SettlingRun(s, m);
    } else {
      run := PlanRun(s, from, to, k - 1, m);
      var more := PlanStep(After(s, run), s.cur, from, to, k - 1, m);
      RunConcat(s, run, more);
      SameHoldingsTransitive(s, After(s, run), After(s, run + more));
      run := run + more;
    }
  }

  /** A rotation can be completed from every reachable state in which one MRC is in use and another is Inactive, at any
      time and with any validities. It ends with the new MRC alone in use; every request that had a certificate has one
      still; and all the certificates that proxies use are signed by the new MRC. */
  lemma RotationCanComplete(init: State, before: seq<Action>, from: string, to: string, m: Moment)
    returns (run: seq<Action>)
    requires Init(init) && IsRun(init, before) && CanStart(After(init, before).cur, from, to)
    ensures IsRun(init, before + run)
    ensures PermittedNames(After(init, before + run).cur, to, to) && Settled(After(init, before + run))
    ensures SameHoldings(After(init, before), After(init, before + run))
    ensures forall h :: InUseBySome(After(init, before + run), h) ==> h.cert.signingIssuerID == to
  {
    InitGivesInv(init);
    RunKeepsInv(init, before);
    var s := After(init, before);
    run := PlanRun(s, from, to, 4, m);
    RunConcat(init, before, run);
    StageIsValid(s.cur, from, to, 4);
    SettledUnderOneSigner(After(s, run), to);
  }

  lemma SettledUnderOneSigner(s: State, signer: string)
    requires Inv(s) && Settled(s) && PermittedNames(s.cur, signer, signer)
    ensures forall h :: InUseBySome(s, h) ==> h.cert.signingIssuerID == signer
  {
    forall h | InUseBySome(s, h)
      ensures h.cert.signingIssuerID == signer
    {
      InUseIsOk(s, h);
      IssuedUnderOnlySigner(s.cur, h, signer);
    }
  }

  lemma IssuedUnderOnlySigner(cfg: Config, h: Held, signer: string)
    requires IssuedUnder(cfg, h) && PermittedNames(cfg, signer, signer)
    ensures h.cert.signingIssuerID == signer && h.cert.trustedCAs == [cfg[signer].provider.root]
  {
    assert h.cert.signingIssuerID in InUse(cfg) && h.cert.validatingIssuerID in InUse(cfg);
  }

  // ---------------------------------------------------------------------------
  // Why each change must wait

  ghost predicate IsUngatedRun(s: State, run: seq<Action>)
    decreases |run|
  {
    run == [] || (Possible(s, run[0]) && IsUngatedRun(Next(s, run[0]), run[1..]))
  }

  ghost function AfterUngated(s: State, run: seq<Action>): State
    requires IsUngatedRun(s, run)
    decreases |run|
  {
    if run == [] then s else AfterUngated(Next(s, run[0]), run[1..])
  }

  lemma UngatedFive(s: State, a: Action, b: Action, c: Action, d: Action, e: Action)
    requires Possible(s, a) && Possible(Next(s, a), b) && Possible(Next(Next(s, a), b), c)
    requires Possible(Next(Next(Next(s, a), b), c), d) && Possible(Next(Next(Next(Next(s, a), b), c), d), e)
    ensures IsUngatedRun(s, [a, b, c, d, e])
    ensures AfterUngated(s, [a, b, c, d, e]) == Next(Next(Next(Next(Next(s, a), b), c), d), e)
  {
    var t := Next(Next(s, a), b);
    UngatedThree(t, c, d, e);
    assert [a, b, c, d, e][1..] == [b, c, d, e] && [b, c, d, e][1..] == [c, d, e];
  }

  lemma UngatedThree(s: State, a: Action, b: Action, c: Action)
    requires Possible(s, a) && Possible(Next(s, a), b) && Possible(Next(Next(s, a), b), c)
    ensures IsUngatedRun(s, [a, b, c]) && AfterUngated(s, [a, b, c]) == Next(Next(Next(s, a), b), c)
  {
    var t := Next(Next(s, a), b);
    assert [a, b, c][1..] == [b, c] && [b, c][1..] == [c] && [c][1..] == [];
    assert IsUngatedRun(t, [c]) && AfterUngated(t, [c]) == Next(t, c);
  }

  lemma {:induction false} NoneInUse(list: seq<MRC>)
    requires forall m <- list :: m.role == Inactive
    ensures OnlyInUse(list) == []
  {
    if list != [] {
      NoneInUse(list[1..]);
    }
  }

  lemma PrependName(m: MRC, list: seq<MRC>)
    requires DistinctNames(list) && forall k <- list :: k.name != m.name
    ensures DistinctNames([m] + list)
    ensures OnlyInUse([m] + list) == (if m.role != Inactive then [m] else []) + OnlyInUse(list)
  {
    assert ([m] + list)[1..] == list;
  }

  /** The MRCs besides the two in use. */
  lemma UnusedListing(cfg: Config, first: string, second: string) returns (rest: seq<MRC>)
    requires InUse(cfg) == {first, second}
    ensures DistinctNames(rest) && OnlyInUse(rest) == []
    ensures forall m :: m in rest <==> m.name in cfg && m.name != first && m.name != second && cfg[m.name] == m
  {
    rest := ListingOf(cfg, cfg.Keys - {first, second});
    forall m <- rest
      ensures m.role == Inactive
    {
      assert m.name !in InUse(cfg);
    }
    NoneInUse(rest);
  }

  /** Of two Active MRCs, the one listed first becomes the signer. */
  lemma ListingWithFirst(cfg: Config, first: string, second: string) returns (list: seq<MRC>)
    requires first != second && InUse(cfg) == {first, second}
    ensures IsListing(list, cfg) && OnlyInUse(list) == [cfg[first], cfg[second]]
  {
    assert first in InUse(cfg) && second in InUse(cfg);
    var rest := UnusedListing(cfg, first, second);
    PrependName(cfg[second], rest);
    PrependName(cfg[first], [cfg[second]] + rest);
    list := [cfg[first]] + ([cfg[second]] + rest);
    forall m
      ensures m in list <==> m.name in cfg && cfg[m.name] == m
    {
      assert m in list <==> m == cfg[first] || m == cfg[second] || m in rest;
    }
  }

  lemma UpdateAction(s: State, cfg: Config, from: string, to: string, k: nat) returns (a: Action)
    requires CanStart(cfg, from, to) && k < 4 && s.cur == Stage(cfg, from, to, k)
    ensures a.ChangeMRC? && Possible(s, a) && Next(s, a).cur == Stage(cfg, from, to, k + 1)
    ensures SameCertificates(s, Next(s, a))
  {
    var list, change := PlannedChange(s.cur, cfg, from, to, k);
    a := ChangeMRC(list, change);
  }

  ghost predicate SameCertificates(s: State, t: State) {
    t.nodes.Keys == s.nodes.Keys && t.held.Keys == s.held.Keys && forall h <- s.held :: t.held[h].cert == s.held[h].cert
  }

  /** A manager that starts while both MRCs are Active may sign with the new one. */
  lemma NewManagerSigns(s: State, n: nat, from: string, to: string, o: IssueOptions, m: Moment)
    returns (start: Action, event: Action, issue: Action)
    requires n !in s.nodes && BothActive(s.cur, from, to)
    ensures Possible(s, start) && Possible(Next(s, start), event) && Possible(Next(Next(s, start), event), issue)
    ensures var end, key := Next(Next(Next(s, start), event), issue), (n, o.commonNamePrefix);
            key in end.held && end.held == s.held[key := end.held[key]] &&
            end.held[key].cert.issuingCA == s.cur[to].provider.root
  {
    var list := ListingWithFirst(s.cur, to, from);
    start, event, issue := StartManager(n), HandleEvent(n, list, false, {}), Issue(n, o, m.validity, m.now, 0, true);
    var issuers := Issuers(Some(IssuerOf(s.cur[to])), Some(IssuerOf(s.cur[from])));
    assert HandleMRCEvent(NO_ISSUERS, list, {}) == (issuers, None);
    var t := Next(Next(s, start), event);
    assert t.nodes[n] == Node(issuers, map[], true) && t.held == s.held;
    IssuesNew(t, n, o, m);
  }

  lemma IssuesNew(s: State, n: nat, o: IssueOptions, m: Moment)
    requires n in s.nodes && s.nodes[n].cache == map[] && Ready(s.nodes[n].issuers)
    ensures var end, key := Next(s, Issue(n, o, m.validity, m.now, 0, true)), (n, o.commonNamePrefix);
            key in end.held && end.held == s.held[key := end.held[key]] &&
            end.held[key].cert.issuingCA == s.nodes[n].issuers.signing.value.ca
  {
  }

  /** Two updates of the plan without a wait in between. */
  lemma TwoUpdates(s: State, from: string, to: string) returns (first: Action, second: Action)
    requires CanStart(s.cur, from, to)
    ensures Possible(s, first) && Possible(Next(s, first), second)
    ensures var t := Next(Next(s, first), second);
            && SameCertificates(s, t) && BothActive(t.cur, from, to) && SameButForRole(t.cur[to], s.cur[to])
  {
    PlannedUpdate(s.cur, from, to, 0);
    first := UpdateAction(s, s.cur, from, to, 0);
    second := UpdateAction(Next(s, first), s.cur, from, to, 1);
    StageInUse(s.cur, from, to, 2);
  }

  predicate BothActive(cfg: Config, from: string, to: string) {
    && from != to && InUse(cfg) == {from, to}
    && from in cfg && to in cfg && cfg[from].role == cfg[to].role == Active
  }

  lemma UngatedRotation(s: State, h: (nat, string), from: string, to: string, n: nat, o: IssueOptions, m: Moment)
    returns (run: seq<Action>)
    requires CanStart(s.cur, from, to) && h in s.held && h.0 in s.nodes && n !in s.nodes
    ensures IsUngatedRun(s, run)
    ensures var end, key := AfterUngated(s, run), (n, o.commonNamePrefix);
            && h in end.held && end.held[h].cert == s.held[h].cert
            && key in end.held && end.held[key].cert.issuingCA == s.cur[to].provider.root
  {
    var first, second := TwoUpdates(s, from, to);
    var t := Next(Next(s, first), second);
    var start, event, issue := NewManagerSigns(t, n, from, to, o, m);
    UngatedFive(s, first, second, start, event, issue);
    run := [first, second, start, event, issue];
  }

  /** Without the wait trust is lost: from every settled state with a certificate in use, two admitted updates
      that do not wait, and a manager that starts after them, end with that certificate still in use and not
      trusting a new one. */
  lemma SkippingTheWaitBreaksTrust(s: State, h: (nat, string), from: string, to: string, n: nat, o: IssueOptions,
                                   m: Moment)
    returns (run: seq<Action>)
    requires Inv(s) && Settled(s) && CanStart(s.cur, from, to) && s.cur[from].provider.root != s.cur[to].provider.root
    requires h in s.held && n !in s.nodes
    ensures IsUngatedRun(s, run)
    ensures var end, key := AfterUngated(s, run), (n, o.commonNamePrefix);
            && h in end.held && end.held[h].cert == s.held[h].cert && key in end.held
            && !Trusts(end.held[h].cert, end.held[key].cert)
  {
    OnlySignersRootIsTrusted(s, h, from);
    run := UngatedRotation(s, h, from, to, n, o, m);
  }

  lemma OnlySignersRootIsTrusted(s: State, h: (nat, string), signer: string)
    requires Inv(s) && Settled(s) && PermittedNames(s.cur, signer, signer) && h in s.held
    ensures h.0 in s.nodes && s.held[h].cert.trustedCAs == [s.cur[signer].provider.root]
  {
    assert HeldOk(s.prev, s.cur, s.held[h]);
    IssuedUnderOnlySigner(s.cur, s.held[h], signer);
  }
}
