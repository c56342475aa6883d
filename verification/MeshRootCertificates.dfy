/** MeshRootCertificates (MRCs), the configurations they form, and the lists in which a client returns them. */
module MeshRootCertificates {
  import opened Wrappers
  import opened Certificates

  datatype Role = Active | Passive | Inactive

  datatype SecretRef = SecretRef(name: string, namespace: string)
  datatype VaultSpec = VaultSpec(host: string, protocol: string, role: string, tokenKey: string, token: SecretRef)
  datatype CertManagerSpec = CertManagerSpec(issuerName: string, issuerKind: string, issuerGroup: string)

  /** The provider settings. `root` is the root certificate these settings resolve to. */
  datatype Provider = Provider(
    tresor: Option<SecretRef>,
    vault: Option<VaultSpec>,
    certManager: Option<CertManagerSpec>,
    root: Root)

  datatype MRC = MRC(name: string, role: Role, trustDomain: string, spiffeEnabled: bool, provider: Provider)

  datatype MrcError =
    | NoMRCsFound
    | NumMRCExceedsMaxSupported
    | ExpectedActiveMRC
    | ProviderUnavailable
    | EmptyTrustDomain
    | InvalidProvider
    | RoleAlreadyInUse
    | RotationInProgress
    | ImmutableField
    | ForbiddenRoleChange

  /** The MRCs of the control plane, by name. */
  type Config = cfg: map<string, MRC> | forall n :: n in cfg ==> cfg[n].name == n

  function InUse(cfg: Config): set<string> {
    set n | n in cfg && cfg[n].role != Inactive
  }

  /** `s` may sign while `v` validates: together they are the MRCs in use, and `s` is Active. */
  predicate PermittedNames(cfg: Config, s: string, v: string) {
    s in cfg && cfg[s].role == Active && InUse(cfg) == {s, v}
  }

  ghost predicate ValidConfig(cfg: Config) {
    exists s, v :: PermittedNames(cfg, s, v)
  }

  /** A configuration is valid when one or two MRCs are in use and at least one is Active. */
  lemma ValidConfigCounts(cfg: Config)
    ensures ValidConfig(cfg) <==> 1 <= |InUse(cfg)| <= 2 && exists n :: n in cfg && cfg[n].role == Active
  {
    if ValidConfig(cfg) {
      var s, v :| PermittedNames(cfg, s, v);
      assert |{s, v}| <= 2 && s in InUse(cfg);
    }
    if 1 <= |InUse(cfg)| <= 2 && exists n :: n in cfg && cfg[n].role == Active {
      var s :| s in cfg && cfg[s].role == Active;
      assert s in InUse(cfg);
      var others := InUse(cfg) - {s};
      assert |others| == |InUse(cfg)| - 1;
      if others == {} {
        assert PermittedNames(cfg, s, s);
      } else {
        var v :| v in others;
        assert |others - {v}| == 0;
        assert PermittedNames(cfg, s, v);
      }
    }
  }

  predicate DistinctNames(list: seq<MRC>) {
    forall i, j :: 0 <= i < j < |list| ==> list[i].name != list[j].name
  }

  /** `list` returns every MRC of the configuration once, in an order of the client's choosing. */
  ghost predicate IsListing(list: seq<MRC>, cfg: Config) {
    && DistinctNames(list)
    && (forall m :: m in list ==> m.name in cfg && cfg[m.name] == m)
    && (forall n :: n in cfg ==> cfg[n] in list)
  }

  /** The MRCs of the list that are Active or Passive, in list order. */
  function OnlyInUse(list: seq<MRC>): seq<MRC> {
    if list == [] then []
    else (if list[0].role != Inactive then [list[0]] else []) + OnlyInUse(list[1..])
  }

  lemma {:induction false} OnlyInUseMembers(list: seq<MRC>)
    ensures forall m :: m in OnlyInUse(list) <==> m in list && m.role != Inactive
  {
    if list != [] {
      OnlyInUseMembers(list[1..]);
    }
  }

  lemma {:induction false} OnlyInUseAppend(list: seq<MRC>, m: MRC)
    ensures OnlyInUse(list + [m]) == OnlyInUse(list) + (if m.role != Inactive then [m] else [])
  {
    if list == [] {
      assert list + [m] == [m];
    } else {
      assert (list + [m])[1..] == list[1..] + [m];
      OnlyInUseAppend(list[1..], m);
    }
  }

  lemma {:induction false} OnlyInUseDistinct(list: seq<MRC>)
    requires DistinctNames(list)
    ensures DistinctNames(OnlyInUse(list))
  {
    if list != [] {
      OnlyInUseMembers(list[1..]);
      assert forall m :: m in list[1..] ==> m.name != list[0].name;
      OnlyInUseDistinct(list[1..]);
    }
  }

  /** Expects the MRCs in use; None means that the combination is valid. */
  function ValidateMRCCombination(list: seq<MRC>): Option<MrcError> {
    if |list| == 0 then Some(NoMRCsFound)
    else if |list| > 2 then Some(NumMRCExceedsMaxSupported)
    else if |list| == 1 && list[0].role != Active then Some(ExpectedActiveMRC)
    else if |list| == 2 && list[0].role == Passive && list[1].role == Passive then Some(ExpectedActiveMRC)
    else None
  }

  /** The MRCs in use according to a listing are exactly those of the configuration. */
  ghost predicate ListsInUse(used: seq<MRC>, cfg: Config) {
    && DistinctNames(used)
    && (forall m :: m in used ==> m.name in cfg && cfg[m.name] == m)
    && InUse(cfg) == set m | m in used :: m.name
  }

  lemma ListingInUse(list: seq<MRC>, cfg: Config)
    requires IsListing(list, cfg)
    ensures ListsInUse(OnlyInUse(list), cfg)
  {
    OnlyInUseMembers(list);
    OnlyInUseDistinct(list);
    var used := OnlyInUse(list);
    forall n | n in InUse(cfg)
      ensures n in set m | m in used :: m.name
    {
      assert cfg[n] in used;
    }
  }

  lemma InUseCount(used: seq<MRC>, cfg: Config)
    requires ListsInUse(used, cfg)
    ensures |used| == |InUse(cfg)|
  {
    DistinctCount(used);
  }

  lemma {:induction false} DistinctCount(list: seq<MRC>)
    requires DistinctNames(list)
    ensures |set m | m in list :: m.name| == |list|
  {
    if list != [] {
      var names := set m | m in list :: m.name;
      var rest := set m | m in list[1..] :: m.name;
      DistinctCount(list[1..]);
      assert list[0].name !in rest;
      assert names == {list[0].name} + rest by {
        forall n | n in names
          ensures n in {list[0].name} + rest
        {
          var m :| m in list && m.name == n;
          assert m == list[0] || m in list[1..];
        }
      }
    }
  }

  lemma CheckedCombinationIsValid(used: seq<MRC>, cfg: Config)
    requires ListsInUse(used, cfg) && ValidateMRCCombination(used).None?
    ensures ValidConfig(cfg)
  {
    if |used| == 1 {
      assert used[0].name in InUse(cfg);
      assert PermittedNames(cfg, used[0].name, used[0].name);
    } else {
      assert used[0].name in InUse(cfg) && used[1].name in InUse(cfg);
      var (s, v) := if used[0].role == Active then (used[0], used[1]) else (used[1], used[0]);
      assert PermittedNames(cfg, s.name, v.name);
    }
  }

  lemma PairBoundsLength(used: seq<MRC>, s: string, v: string)
    requires DistinctNames(used) && (forall m :: m in used ==> m.name in {s, v})
    ensures |used| <= 2
  {
    if |used| > 1 {
      var third := if |used| > 2 then used[2] else used[0];
      assert used[0] in used && used[1] in used && third in used;
    }
  }

  lemma ValidCombinationIsAccepted(used: seq<MRC>, cfg: Config)
    requires ListsInUse(used, cfg) && ValidConfig(cfg)
    ensures ValidateMRCCombination(used).None?
  {
    var s, v :| PermittedNames(cfg, s, v);
    assert s in InUse(cfg);
    var m :| m in used && m.name == s;
    assert cfg[s] == m;
    forall m | m in used
      ensures m.name in {s, v}
    {
      assert m.name in InUse(cfg);
    }
    PairBoundsLength(used, s, v);
  }

  /** The check on a listing decides whether the configuration is valid, whatever the order of the list. */
  lemma CombinationDecidesValidity(list: seq<MRC>, cfg: Config)
    requires IsListing(list, cfg)
    ensures ValidateMRCCombination(OnlyInUse(list)).None? <==> ValidConfig(cfg)
  {
    ListingInUse(list, cfg);
    if ValidateMRCCombination(OnlyInUse(list)).None? {
      CheckedCombinationIsValid(OnlyInUse(list), cfg);
    }
    if ValidConfig(cfg) {
      ValidCombinationIsAccepted(OnlyInUse(list), cfg);
    }
  }

  /** Which error the check reports: nothing is in use, more than two MRCs are, or none of them is Active. */
  lemma CombinationErrorIff(list: seq<MRC>, cfg: Config)
    requires IsListing(list, cfg)
    ensures var err := ValidateMRCCombination(OnlyInUse(list));
            && (err == Some(NoMRCsFound) <==> InUse(cfg) == {})
            && (err == Some(NumMRCExceedsMaxSupported) <==> |InUse(cfg)| > 2)
            && (err == Some(ExpectedActiveMRC) <==>
                1 <= |InUse(cfg)| <= 2 && forall n <- InUse(cfg) :: cfg[n].role == Passive)
            && (err.Some? ==> err.value in {NoMRCsFound, NumMRCExceedsMaxSupported, ExpectedActiveMRC})
  {
    ListingInUse(list, cfg);
    var used := OnlyInUse(list);
    InUseCount(used, cfg);
    OnlyInUseMembers(list);
    if 1 <= |used| <= 2 {
      RolesInUse(used, cfg);
      assert used[0] in used && used[|used| - 1] in used;
    }
  }

  lemma RolesInUse(used: seq<MRC>, cfg: Config)
    requires ListsInUse(used, cfg)
    ensures (forall n <- InUse(cfg) :: cfg[n].role == Passive) <==> forall m <- used :: m.role == Passive
  {
    forall m <- used
      ensures m.name in InUse(cfg) && cfg[m.name] == m
    {
    }
    forall n <- InUse(cfg)
      ensures cfg[n] in used
    {
      var m :| m in used && m.name == n;
    }
  }
}
