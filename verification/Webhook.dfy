/** The admission webhook for MRCs: which creates and updates it lets through. */
module Webhook {
  import opened Wrappers
  import opened MeshRootCertificates

  predicate ValidProvider(p: Provider) {
    if p.tresor.Some? then p.tresor.value.name != "" && p.tresor.value.namespace != ""
    else if p.vault.Some? then
      var v := p.vault.value;
      && v.host != "" && v.protocol != "" && v.role != ""
      && v.tokenKey != "" && v.token.name != "" && v.token.namespace != ""
    else if p.certManager.Some? then
      var c := p.certManager.value;
      c.issuerGroup != "" && c.issuerKind != "" && c.issuerName != ""
    else false
  }

  /** The settings of the provider that counts are complete: Tresor's if they are given, else Vault's, else those of
      cert-manager. */
  predicate IsComplete(p: Provider) {
    || (&& p.tresor.Some? && p.tresor.value.name != "" && p.tresor.value.namespace != "")
    || (&& p.tresor.None? && p.vault.Some?
        && p.vault.value.host != "" && p.vault.value.protocol != "" && p.vault.value.role != ""
        && p.vault.value.tokenKey != "" && p.vault.value.token.name != "" && p.vault.value.token.namespace != "")
    || (&& p.tresor.None? && p.vault.None? && p.certManager.Some?
        && p.certManager.value.issuerGroup != "" && p.certManager.value.issuerKind != ""
        && p.certManager.value.issuerName != "")
  }

  predicate MatchingRoleExists(mrcs: seq<MRC>, mrc: MRC) {
    exists m :: m in mrcs && m.role == mrc.role && m.name != mrc.name
  }

  /** The list with the role of the MRC that carries the new MRC's name set to the new role. */
  function Simulated(list: seq<MRC>, newMrc: MRC): seq<MRC> {
    if list == [] then []
    else [if list[0].name == newMrc.name then list[0].(role := newMrc.role) else list[0]] + Simulated(list[1..], newMrc)
  }

  /** None admits the create. */
  function CreateVerdict(list: seq<MRC>, mrc: MRC): Option<MrcError> {
    if mrc.trustDomain == "" then Some(EmptyTrustDomain)
    else if !ValidProvider(mrc.provider) then Some(InvalidProvider)
    else if mrc.role == Inactive then None
    else if MatchingRoleExists(OnlyInUse(list), mrc) then Some(RoleAlreadyInUse)
    else if |OnlyInUse(list)| >= 2 then Some(RotationInProgress)
    else None
  }

  /** None admits the update. */
  function UpdateVerdict(list: seq<MRC>, oldMrc: MRC, newMrc: MRC): Option<MrcError> {
    if oldMrc.provider != newMrc.provider || oldMrc.trustDomain != newMrc.trustDomain
       || oldMrc.spiffeEnabled != newMrc.spiffeEnabled then Some(ImmutableField)
    else if oldMrc.role == Active && newMrc.role == Inactive then Some(ForbiddenRoleChange)
    else if oldMrc.role == Inactive && newMrc.role == Active then Some(ForbiddenRoleChange)
    else ValidateMRCCombination(OnlyInUse(Simulated(list, newMrc)))
  }

  method MrcWithMatchingRoleExists(mrcs: seq<MRC>, mrc: MRC) returns (found: bool)
    ensures found <==> MatchingRoleExists(mrcs, mrc)
  {
    for i := 0 to |mrcs|
      invariant !MatchingRoleExists(mrcs[..i], mrc)
    {
      if mrcs[i].role == mrc.role && mrcs[i].name != mrc.name {
        return true;
      }
    }
    assert mrcs[..|mrcs|] == mrcs;
    return false;
  }

  /** getUseableMRCs on the list the compute client returns. */
  method GetUseableMRCs(list: seq<MRC>) returns (inUse: seq<MRC>)
    ensures inUse == OnlyInUse(list)
  {
    inUse := [];
    for i := 0 to |list|
      invariant inUse == OnlyInUse(list[..i])
    {
      assert list[..i + 1] == list[..i] + [list[i]];
      OnlyInUseAppend(list[..i], list[i]);
      if list[i].role == Active || list[i].role == Passive {
        inUse := inUse + [list[i]];
      }
    }
    assert list[..|list|] == list;
  }

  lemma {:induction false} SimulatedAppend(list: seq<MRC>, m: MRC, newMrc: MRC)
    ensures Simulated(list + [m], newMrc)
         == Simulated(list, newMrc) + [if m.name == newMrc.name then m.(role := newMrc.role) else m]
  {
    if list == [] {
      assert list + [m] == [m];
    } else {
      assert (list + [m])[1..] == list[1..] + [m];
      SimulatedAppend(list[1..], m, newMrc);
    }
  }

  /** Runs the desired change on a copy of the list; the original writes the role into the listed objects. */
  method SimulateDesiredCertConfiguration(list: seq<MRC>, newMrc: MRC) returns (verdict: Option<MrcError>)
    ensures verdict == ValidateMRCCombination(OnlyInUse(Simulated(list, newMrc)))
  {
    var desired := [];
    for i := 0 to |list|
      invariant desired == OnlyInUse(Simulated(list[..i], newMrc))
    {
      var mrc := list[i];
      if mrc.name == newMrc.name {
        mrc := mrc.(role := newMrc.role);
      }
      assert list[..i + 1] == list[..i] + [list[i]];
      SimulatedAppend(list[..i], list[i], newMrc);
      OnlyInUseAppend(Simulated(list[..i], newMrc), mrc);
      if mrc.role == Active || mrc.role == Passive {
        desired := desired + [mrc];
      }
    }
    assert list[..|list|] == list;
    verdict := ValidateMRCCombination(desired);
  }

  method ValidateMRCOnCreate(list: seq<MRC>, mrc: MRC) returns (verdict: Option<MrcError>)
    ensures verdict == CreateVerdict(list, mrc)
  {
    if mrc.trustDomain == "" {
      return Some(EmptyTrustDomain);
    }
    if !ValidProvider(mrc.provider) {
      return Some(InvalidProvider);
    }
    match mrc.role {
      case Inactive => return None;
      case _ =>
        var inUse := GetUseableMRCs(list);
        var matching := MrcWithMatchingRoleExists(inUse, mrc);
        if matching {
          return Some(RoleAlreadyInUse);
        }
        return if |inUse| >= 2 then Some(RotationInProgress) else None;
    }
  }

  method ValidateMRCOnUpdate(list: seq<MRC>, oldMrc: MRC, newMrc: MRC) returns (verdict: Option<MrcError>)
    ensures verdict == UpdateVerdict(list, oldMrc, newMrc)
  {
    if oldMrc.provider != newMrc.provider || oldMrc.trustDomain != newMrc.trustDomain
       || oldMrc.spiffeEnabled != newMrc.spiffeEnabled {
      return Some(ImmutableField);
    }
    if oldMrc.role == Active && newMrc.role == Inactive {
      return Some(ForbiddenRoleChange);
    }
    if oldMrc.role == Inactive && newMrc.role == Active {
      return Some(ForbiddenRoleChange);
    }
    verdict := SimulateDesiredCertConfiguration(list, newMrc);
  }

  // ---------------------------------------------------------------------------
  // What admission guarantees

  datatype Change = Create(mrc: MRC) | Update(mrc: MRC)

  /** The API server sends a create only for a new name and an update only for an existing one;
      `list` is the order in which the webhook's client lists the configuration. */
  predicate Admitted(cfg: Config, list: seq<MRC>, change: Change) {
    match change
    case Create(mrc) => mrc.name !in cfg && CreateVerdict(list, mrc).None?
    case Update(mrc) => mrc.name in cfg && UpdateVerdict(list, cfg[mrc.name], mrc).None?
  }

  function Apply(cfg: Config, change: Change): Config {
    cfg[change.mrc.name := change.mrc]
  }

  lemma {:induction false} SimulatedAt(list: seq<MRC>, newMrc: MRC)
    ensures |Simulated(list, newMrc)| == |list|
    ensures forall i :: 0 <= i < |list| ==>
              Simulated(list, newMrc)[i] == if list[i].name == newMrc.name then list[i].(role := newMrc.role)
                else list[i]
  {
    if list != [] {
      SimulatedAt(list[1..], newMrc);
    }
  }

  lemma SimulatedSound(cfg: Config, list: seq<MRC>, newMrc: MRC, m: MRC)
    requires IsListing(list, cfg) && newMrc.name in cfg && newMrc == cfg[newMrc.name].(role := newMrc.role)
    requires m in Simulated(list, newMrc)
    ensures m.name in cfg && m == cfg[newMrc.name := newMrc][m.name]
  {
    SimulatedAt(list, newMrc);
    var i :| 0 <= i < |list| && Simulated(list, newMrc)[i] == m;
    assert list[i] in list;
  }

  lemma SimulatedComplete(cfg: Config, list: seq<MRC>, newMrc: MRC, n: string)
    requires IsListing(list, cfg) && newMrc.name in cfg && newMrc == cfg[newMrc.name].(role := newMrc.role)
    requires n in cfg
    ensures cfg[newMrc.name := newMrc][n] in Simulated(list, newMrc)
  {
    SimulatedAt(list, newMrc);
    var i :| 0 <= i < |list| && list[i] == cfg[n];
    assert Simulated(list, newMrc)[i] in Simulated(list, newMrc);
  }

  /** Simulating an update that keeps the immutable fields lists the configuration after the update. */
  lemma SimulationListsResult(cfg: Config, list: seq<MRC>, newMrc: MRC)
    requires IsListing(list, cfg) && newMrc.name in cfg && newMrc == cfg[newMrc.name].(role := newMrc.role)
    ensures IsListing(Simulated(list, newMrc), cfg[newMrc.name := newMrc])
  {
    assert DistinctNames(Simulated(list, newMrc)) by {
      SimulatedAt(list, newMrc);
    }
    forall m | m in Simulated(list, newMrc)
      ensures m.name in cfg && m == cfg[newMrc.name := newMrc][m.name]
    {
      SimulatedSound(cfg, list, newMrc, m);
    }
    forall n | n in cfg
      ensures cfg[newMrc.name := newMrc][n] in Simulated(list, newMrc)
    {
      SimulatedComplete(cfg, list, newMrc, n);
    }
  }

  /** An update is admitted exactly when it changes nothing but the role, does not jump between Active and Inactive,
      and leaves a valid configuration. The order of the list plays no part. */
  lemma UpdateAdmittedIff(cfg: Config, list: seq<MRC>, newMrc: MRC)
    requires IsListing(list, cfg) && newMrc.name in cfg
    ensures Admitted(cfg, list, Update(newMrc)) <==>
              && newMrc == cfg[newMrc.name].(role := newMrc.role)
              && {cfg[newMrc.name].role, newMrc.role} != {Active, Inactive}
              && ValidConfig(Apply(cfg, Update(newMrc)))
  {
    var before := cfg[newMrc.name];
    assert {before.role, newMrc.role} == {Active, Inactive} <==>
           (before.role == Active && newMrc.role == Inactive) || (before.role == Inactive && newMrc.role == Active);
    if newMrc == before.(role := newMrc.role) {
      SimulationListsResult(cfg, list, newMrc);
      CombinationDecidesValidity(Simulated(list, newMrc), Apply(cfg, Update(newMrc)));
    }
  }

  /** Which error an update that is not admitted meets; CombinationErrorIff tells the errors of the last kind apart. */
  lemma UpdateErrorIff(cfg: Config, list: seq<MRC>, newMrc: MRC)
    requires IsListing(list, cfg) && newMrc.name in cfg
    ensures var before := cfg[newMrc.name];
            var err := UpdateVerdict(list, before, newMrc);
            && (err == Some(ImmutableField) <==> newMrc != before.(role := newMrc.role))
            && (err == Some(ForbiddenRoleChange) <==>
                newMrc == before.(role := newMrc.role) && {before.role, newMrc.role} == {Active, Inactive})
            && (newMrc == before.(role := newMrc.role) && {before.role, newMrc.role} != {Active, Inactive} ==>
                exists after :: IsListing(after, cfg[newMrc.name := newMrc]) &&
                  err == ValidateMRCCombination(OnlyInUse(after)))
  {
    var before := cfg[newMrc.name];
    assert {before.role, newMrc.role} == {Active, Inactive} <==>
           (before.role == Active && newMrc.role == Inactive) || (before.role == Inactive && newMrc.role == Active);
    if newMrc == before.(role := newMrc.role) {
      SimulationListsResult(cfg, list, newMrc);
      CombinationErrorIff(Simulated(list, newMrc), cfg[newMrc.name := newMrc]);
    }
  }

  /** A create is admitted exactly when its settings are complete and it is Inactive, or fewer than two MRCs are in use
      and none of them has its role. */
  lemma CreateAdmittedIff(cfg: Config, list: seq<MRC>, mrc: MRC)
    requires IsListing(list, cfg) && mrc.name !in cfg
    ensures Admitted(cfg, list, Create(mrc)) <==>
              && mrc.trustDomain != "" && IsComplete(mrc.provider)
              && (mrc.role == Inactive || (|InUse(cfg)| < 2 && forall n <- InUse(cfg) :: cfg[n].role != mrc.role))
  {
    CreateErrorIff(cfg, list, mrc);
  }

  /** Which error a create that is not admitted meets: the first of these that applies. */
  lemma CreateErrorIff(cfg: Config, list: seq<MRC>, mrc: MRC)
    requires IsListing(list, cfg) && mrc.name !in cfg
    ensures CreateVerdict(list, mrc) ==
            if mrc.trustDomain == "" then Some(EmptyTrustDomain)
            else if !IsComplete(mrc.provider) then Some(InvalidProvider)
            else if mrc.role != Inactive && exists n <- InUse(cfg) :: cfg[n].role == mrc.role
            then Some(RoleAlreadyInUse)
            else if mrc.role != Inactive && |InUse(cfg)| >= 2 then Some(RotationInProgress)
            else None
  {
    var used := OnlyInUse(list);
    ListingInUse(list, cfg);
    InUseCount(used, cfg);
    forall n <- InUse(cfg)
      ensures cfg[n] in used
    {
      var m :| m in used && m.name == n;
    }
    forall m <- used
      ensures m.name in InUse(cfg)
    {
    }
  }

  /** Beside an Active MRC only a second one that is Passive can be created in use. */
  lemma CreateIntoValidConfig(cfg: Config, list: seq<MRC>, mrc: MRC)
    requires IsListing(list, cfg) && mrc.name !in cfg && ValidConfig(cfg) && Admitted(cfg, list, Create(mrc))
    ensures mrc.trustDomain != "" && (mrc.role == Inactive || (mrc.role == Passive && |InUse(cfg)| == 1))
  {
    CreateAdmittedIff(cfg, list, mrc);
    ValidConfigCounts(cfg);
    var s, v :| PermittedNames(cfg, s, v);
    assert s in InUse(cfg);
  }

  function Place(role: Role): int {
    match role case Active => 0 case Passive => 1 case Inactive => 2
  }

  /** Admission keeps validity, and a role moves by at most one place along Active, Passive, Inactive. */
  lemma AdmittedChangeIsSafe(cfg: Config, list: seq<MRC>, change: Change)
    requires ValidConfig(cfg) && IsListing(list, cfg) && Admitted(cfg, list, change)
    ensures ValidConfig(Apply(cfg, change))
    ensures change.Update? ==> -1 <= Place(change.mrc.role) - Place(cfg[change.mrc.name].role) <= 1
  {
    match change
    case Update(mrc) => UpdateAdmittedIff(cfg, list, mrc);
    case Create(mrc) =>
      CreateIntoValidConfig(cfg, list, mrc);
      CreatedIsValid(cfg, mrc);
  }

  lemma CreatedIsValid(cfg: Config, mrc: MRC)
    requires ValidConfig(cfg) && mrc.name !in cfg
    requires mrc.role == Inactive || (mrc.role == Passive && |InUse(cfg)| == 1)
    ensures ValidConfig(cfg[mrc.name := mrc])
  {
    var next := cfg[mrc.name := mrc];
    var s, v :| PermittedNames(cfg, s, v);
    assert s in InUse(cfg);
    if mrc.role == Inactive {
      assert InUse(next) == InUse(cfg);
      assert PermittedNames(next, s, v);
    } else {
      assert InUse(cfg) == {s} by {
        assert |InUse(cfg) - {s}| == 0;
        assert InUse(cfg) - {s} == {};
      }
      assert InUse(next) == {s, mrc.name};
      assert PermittedNames(next, s, mrc.name);
    }
  }

  /** A run of admitted changes, each checked against some listing of the configuration it meets. */
  ghost predicate AdmittedRun(cfg: Config, run: seq<(seq<MRC>, Change)>)
    decreases |run|
  {
    run == [] ||
    (&& IsListing(run[0].0, cfg) && Admitted(cfg, run[0].0, run[0].1)
     && AdmittedRun(Apply(cfg, run[0].1), run[1..]))
  }

  function ApplyAll(cfg: Config, run: seq<(seq<MRC>, Change)>): Config
    decreases |run|
  {
    if run == [] then cfg else ApplyAll(Apply(cfg, run[0].1), run[1..])
  }

  /** Over every run of admitted changes one or two MRCs stay in use and at least one stays Active. */
  lemma {:induction false} AdmissionInvariant(cfg: Config, run: seq<(seq<MRC>, Change)>)
    requires ValidConfig(cfg) && AdmittedRun(cfg, run)
    ensures var end := ApplyAll(cfg, run);
            1 <= |InUse(end)| <= 2 && exists n :: n in end && end[n].role == Active
    decreases |run|
  {
    if run == [] {
      ValidConfigCounts(cfg);
    } else {
      AdmittedChangeIsSafe(cfg, run[0].0, run[0].1);
      AdmissionInvariant(Apply(cfg, run[0].1), run[1..]);
    }
  }
}
