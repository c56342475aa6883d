/** How a certificate manager reacts to an MRC event: it chooses a signing and a validating issuer. */
module Reconciler {
  import opened Wrappers
  import opened Certificates
  import opened MeshRootCertificates

  /** An issuer that signs with, or validates against, the root of the MRC named `id`. */
  datatype Issuer = Issuer(id: string, trustDomain: string, spiffeEnabled: bool, ca: Root)

  /** The manager's two issuer fields; None stands for nil. */
  datatype Issuers = Issuers(signing: Option<Issuer>, validating: Option<Issuer>)

  const NO_ISSUERS := Issuers(None, None)

  function IssuerOf(mrc: MRC): Issuer {
    Issuer(mrc.name, mrc.trustDomain, mrc.spiffeEnabled, mrc.provider.root)
  }

  /** The (signing, validating) MRCs of a list of MRCs in use. */
  function GetSigningAndValidatingMRCs(list: seq<MRC>): Result<(MRC, MRC), MrcError> {
    match ValidateMRCCombination(list)
    case Some(e) => Err(e)
    case None =>
      if |list| == 1 then Ok((list[0], list[0]))
      else if list[0].role == Passive && list[1].role == Active then Ok((list[1], list[0]))
      else Ok((list[0], list[1]))
  }

  function ShouldUpdateIssuers(cur: Issuers, signing: MRC, validating: MRC): bool {
    if cur.signing.None? || cur.validating.None? then true
    else
      var s, v := cur.signing.value.id, cur.validating.value.id;
      if s == signing.name && v == validating.name then false
      else
        var bothActive := signing.role == Active && validating.role == Active;
        var exist := signing.name in {s, v} && validating.name in {s, v};
        !(signing != validating && bothActive && exist)
  }

  /** Reuses the issuer that already carries the MRC's name; `down` names the MRCs whose provider cannot be reached. */
  function GetCertIssuer(cur: Issuers, mrc: MRC, down: set<string>): Result<Issuer, MrcError> {
    if cur.signing.Some? && mrc.name == cur.signing.value.id then Ok(cur.signing.value)
    else if cur.validating.Some? && mrc.name == cur.validating.value.id then Ok(cur.validating.value)
    else if mrc.name in down then Err(ProviderUnavailable)
    else Ok(IssuerOf(mrc))
  }

  function GetCertIssuers(cur: Issuers, signing: MRC, validating: MRC,
                          down: set<string>): Result<(Issuer, Issuer), MrcError> {
    match GetCertIssuer(cur, signing, down)
    case Err(e) => Err(e)
    case Ok(s) =>
      if signing == validating then Ok((s, s))
      else
        match GetCertIssuer(cur, validating, down)
        case Err(e) => Err(e)
        case Ok(v) => Ok((s, v))
  }

  /** Moves to the issuers of the desired MRCs, unless the current ones already serve. */
  function AdoptMRCs(cur: Issuers, signing: MRC, validating: MRC, down: set<string>): (Issuers, Option<MrcError>) {
    if !ShouldUpdateIssuers(cur, signing, validating) then (cur, None)
    else
      match GetCertIssuers(cur, signing, validating, down)
      case Err(e) => (cur, Some(e))
      case Ok((s, v)) => (Issuers(Some(s), Some(v)), None)
  }

  /** The issuers after one MRC event, given the list the client returns; an error leaves them as they are. */
  function HandleMRCEvent(cur: Issuers, list: seq<MRC>, down: set<string>): (Issuers, Option<MrcError>) {
    match GetSigningAndValidatingMRCs(OnlyInUse(list))
    case Err(e) => (cur, Some(e))
    case Ok((signing, validating)) => AdoptMRCs(cur, signing, validating, down)
  }

  /** filterOutInactiveMRCs compacts the client's slice in place and returns its first `n` entries. */
  method FilterOutInactiveMRCs(list: array<MRC>) returns (n: nat)
    modifies list
    ensures n <= list.Length
    ensures list[..n] == OnlyInUse(old(list[..]))
  {
    n := 0;
    for i := 0 to list.Length
      invariant n <= i
      invariant list[..n] == OnlyInUse(old(list[..i]))
      invariant forall k :: i <= k < list.Length ==> list[k] == old(list[k])
    {
      var mrc := list[i];
      assert old(list[..i + 1]) == old(list[..i]) + [mrc];
      OnlyInUseAppend(old(list[..i]), mrc);
      if mrc.role != Inactive {
        list[n] := mrc;
        n := n + 1;
      }
    }
    assert old(list[..list.Length]) == old(list[..]);
  }

  // ---------------------------------------------------------------------------
  // Convergence

  /** The issuer has the name, trust domain, SPIFFE flag and root of the MRC. */
  predicate IsIssuerOf(issuer: Issuer, mrc: MRC) {
    && issuer.id == mrc.name && issuer.trustDomain == mrc.trustDomain
    && issuer.spiffeEnabled == mrc.spiffeEnabled && issuer.ca == mrc.provider.root
  }

  /** The issuer pair is one that the configuration permits, and both issuers match their MRCs. */
  predicate Permitted(cfg: Config, cur: Issuers) {
    && cur.signing.Some? && cur.validating.Some?
    && var s, v := cur.signing.value, cur.validating.value;
       && PermittedNames(cfg, s.id, v.id) && v.id in cfg
       && IsIssuerOf(s, cfg[s.id]) && IsIssuerOf(v, cfg[v.id])
  }

  /** An issuer that may be reused for the configuration: if it carries the name of an MRC then it matches it. */
  predicate Reusable(cfg: Config, issuer: Option<Issuer>) {
    issuer.Some? && issuer.value.id in cfg ==> IsIssuerOf(issuer.value, cfg[issuer.value.id])
  }

  /** The two MRCs are a permitted choice from the configuration. */
  predicate PermittedMRCs(cfg: Config, s: MRC, v: MRC) {
    PermittedNames(cfg, s.name, v.name) && v.name in cfg && cfg[s.name] == s && cfg[v.name] == v
  }

  lemma ChosenMRCsArePermitted(list: seq<MRC>, cfg: Config)
    requires IsListing(list, cfg)
    ensures var chosen := GetSigningAndValidatingMRCs(OnlyInUse(list));
            && (chosen.Ok? <==> ValidConfig(cfg))
            && (chosen.Ok? ==> PermittedMRCs(cfg, chosen.value.0, chosen.value.1))
  {
    var used := OnlyInUse(list);
    CombinationDecidesValidity(list, cfg);
    ListingInUse(list, cfg);
    if GetSigningAndValidatingMRCs(used).Ok? {
      assert used[0] in used && used[|used| - 1] in used;
      assert used[0].name in InUse(cfg) && used[|used| - 1].name in InUse(cfg);
    }
  }

  /** One event suffices: from any prior issuers, including none, handling one event for a valid configuration reaches a
      pair of names that the configuration permits. An error leaves the issuers alone; when every provider can be
      reached, it occurs exactly when the configuration is invalid. */
  lemma OneEventConverges(cur: Issuers, list: seq<MRC>, cfg: Config)
    requires IsListing(list, cfg)
    ensures var (next, err) := HandleMRCEvent(cur, list, {});
            && (err.None? <==> ValidConfig(cfg))
            && (err.Some? ==> next == cur)
            && (err.None? ==> next.signing.Some? && next.validating.Some?)
            && (err.None? ==> PermittedNames(cfg, next.signing.value.id, next.validating.value.id))
  {
    ChosenMRCsArePermitted(list, cfg);
    var chosen := GetSigningAndValidatingMRCs(OnlyInUse(list));
    if chosen.Ok? {
      AdoptedNamesArePermitted(cur, chosen.value.0, chosen.value.1, cfg);
    }
  }

  lemma AdoptedNamesArePermitted(cur: Issuers, s: MRC, v: MRC, cfg: Config)
    requires PermittedMRCs(cfg, s, v)
    ensures var (next, err) := AdoptMRCs(cur, s, v, {});
            && err.None? && next.signing.Some? && next.validating.Some?
            && PermittedNames(cfg, next.signing.value.id, next.validating.value.id)
  {
    if !ShouldUpdateIssuers(cur, s, v) {
      assert {cur.signing.value.id, cur.validating.value.id} == {s.name, v.name};
    }
  }

  /** Whatever providers are down, a successful event keeps the issuers true to their MRCs if they were reusable. */
  lemma EventKeepsIssuersFaithful(cur: Issuers, list: seq<MRC>, cfg: Config, down: set<string>)
    requires IsListing(list, cfg)
    requires Reusable(cfg, cur.signing) && Reusable(cfg, cur.validating)
    ensures var (next, err) := HandleMRCEvent(cur, list, down);
            if err.None? then Permitted(cfg, next) else next == cur
  {
    ChosenMRCsArePermitted(list, cfg);
    var chosen := GetSigningAndValidatingMRCs(OnlyInUse(list));
    if chosen.Ok? {
      AdoptedIssuersAreFaithful(cur, chosen.value.0, chosen.value.1, cfg, down);
    }
  }

  lemma AdoptedIssuersAreFaithful(cur: Issuers, s: MRC, v: MRC, cfg: Config, down: set<string>)
    requires PermittedMRCs(cfg, s, v)
    requires Reusable(cfg, cur.signing) && Reusable(cfg, cur.validating)
    ensures var (next, err) := AdoptMRCs(cur, s, v, down);
            if err.None? then Permitted(cfg, next) else next == cur
  {
    if !ShouldUpdateIssuers(cur, s, v) {
      assert {cur.signing.value.id, cur.validating.value.id} == {s.name, v.name};
    }
  }

  /** The first event of a manager takes the issuers straight from the chosen MRCs. */
  lemma FirstEventIssuers(list: seq<MRC>, down: set<string>)
    ensures var (next, err) := HandleMRCEvent(NO_ISSUERS, list, down);
            var chosen := GetSigningAndValidatingMRCs(OnlyInUse(list));
            err.None? ==>
              && chosen.Ok? && next.signing.Some? && next.validating.Some?
              && IsIssuerOf(next.signing.value, chosen.value.0) && IsIssuerOf(next.validating.value, chosen.value.1)
  {
  }

  predicate Carries(issuer: Option<Issuer>, name: string) {
    issuer.Some? && issuer.value.id == name
  }

  /** The names of the issuers are ones that the configuration permits. */
  predicate NamesPermitted(cur: Issuers, cfg: Config) {
    cur.signing.Some? && cur.validating.Some? && PermittedNames(cfg, cur.signing.value.id, cur.validating.value.id)
  }

  /** An event fails exactly when the configuration is invalid, or its names are not permitted and an MRC in use for
      which the manager has no issuer cannot be reached. */
  lemma EventFailsIff(cur: Issuers, list: seq<MRC>, cfg: Config, down: set<string>)
    requires IsListing(list, cfg)
    ensures var err := HandleMRCEvent(cur, list, down).1;
            && (err.Some? <==> !ValidConfig(cfg) || err == Some(ProviderUnavailable))
            && (err == Some(ProviderUnavailable) <==>
                && ValidConfig(cfg) && !NamesPermitted(cur, cfg)
                && exists n <- InUse(cfg) :: n in down && !Carries(cur.signing, n) && !Carries(cur.validating, n))
  {
    ChosenMRCsArePermitted(list, cfg);
    CombinationDecidesValidity(list, cfg);
    var chosen := GetSigningAndValidatingMRCs(OnlyInUse(list));
    if chosen.Ok? {
      AdoptingFailsIff(cur, chosen.value.0, chosen.value.1, cfg, down);
    }
  }

  lemma AdoptingFailsIff(cur: Issuers, s: MRC, v: MRC, cfg: Config, down: set<string>)
    requires PermittedMRCs(cfg, s, v) && (s == v || s.name != v.name)
    ensures var err := AdoptMRCs(cur, s, v, down).1;
            && (err.Some? ==> err == Some(ProviderUnavailable))
            && (err.Some? <==>
                && !NamesPermitted(cur, cfg)
                && exists n <- InUse(cfg) :: n in down && !Carries(cur.signing, n) && !Carries(cur.validating, n))
  {
    UpdateIsNeededIff(cur, s, v, cfg);
    assert s.name in InUse(cfg) && v.name in InUse(cfg);
    assert forall n <- InUse(cfg) :: n == s.name || n == v.name;
  }

  lemma UpdateIsNeededIff(cur: Issuers, s: MRC, v: MRC, cfg: Config)
    requires PermittedMRCs(cfg, s, v)
    ensures ShouldUpdateIssuers(cur, s, v) <==> !NamesPermitted(cur, cfg)
  {
    if cur.signing.Some? && cur.validating.Some? {
      var a, b := cur.signing.value.id, cur.validating.value.id;
      if NamesPermitted(cur, cfg) || !ShouldUpdateIssuers(cur, s, v) {
        assert {a, b} == {s.name, v.name};
      }
    }
  }

  /** No flapping: a permitted pair survives another event, in any list order and whichever providers are down. */
  lemma PermittedPairIsStable(cur: Issuers, list: seq<MRC>, cfg: Config, down: set<string>)
    requires IsListing(list, cfg)
    requires cur.signing.Some? && cur.validating.Some?
    requires PermittedNames(cfg, cur.signing.value.id, cur.validating.value.id)
    ensures HandleMRCEvent(cur, list, down) == (cur, None)
  {
    var s, v := cur.signing.value.id, cur.validating.value.id;
    ChosenMRCsArePermitted(list, cfg);
    var (signing, validating) := GetSigningAndValidatingMRCs(OnlyInUse(list)).value;
    assert {signing.name, validating.name} == {s, v};
  }

  /** The issuers after a series of events, each with its own list. */
  function HandleMRCEvents(cur: Issuers, lists: seq<seq<MRC>>, down: set<string>): Issuers
    decreases |lists|
  {
    if lists == [] then cur
    else HandleMRCEvents(HandleMRCEvent(cur, lists[0], down).0, lists[1..], down)
  }

  /** Convergence without flapping: after the first event any further events, listing the same valid configuration in
      any order, leave the issuers as the first one set them. */
  lemma {:induction false} FirstEventDecides(cur: Issuers, first: seq<MRC>, rest: seq<seq<MRC>>, cfg: Config,
                                             down: set<string>)
    requires ValidConfig(cfg) && IsListing(first, cfg) && (forall list :: list in rest ==> IsListing(list, cfg))
    ensures HandleMRCEvents(HandleMRCEvent(cur, first, {}).0, rest, down) == HandleMRCEvent(cur, first, {}).0
  {
    OneEventConverges(cur, first, cfg);
    StableUnderEvents(HandleMRCEvent(cur, first, {}).0, rest, cfg, down);
  }

  lemma {:induction false} StableUnderEvents(cur: Issuers, lists: seq<seq<MRC>>, cfg: Config, down: set<string>)
    requires cur.signing.Some? && cur.validating.Some?
    requires PermittedNames(cfg, cur.signing.value.id, cur.validating.value.id)
    requires forall list :: list in lists ==> IsListing(list, cfg)
    ensures HandleMRCEvents(cur, lists, down) == cur
  {
    if lists != [] {
      PermittedPairIsStable(cur, lists[0], cfg, down);
      StableUnderEvents(cur, lists[1..], cfg, down);
    }
  }
}
