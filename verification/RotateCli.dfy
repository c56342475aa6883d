/** The `osm alpha certificate rotate` command against a cluster whose webhook checks every change. */
module RotateCli {
  import opened Wrappers
  import opened Certificates
  import opened MeshRootCertificates
  import opened Webhook
  import opened RotationPlan

  datatype CliError =
    | NotEnabled
    | NotFound
    | AlreadyExists
    | Rejected(reason: MrcError)
    | NotOneActive
    | TargetNotInactive
    | CannotCreate

  /** What a role update needs: the MRC exists, the role does not jump, and the result is a valid configuration. */
  ghost predicate RoleUpdateOk(cfg: Config, name: string, role: Role) {
    && name in cfg
    && {cfg[name].role, role} != {Active, Inactive}
    && ValidConfig(SetRole(cfg, name, role))
  }

  /** The MRCs as the API server stores them. */
  class Cluster {
    var mrcs: Config

    constructor (mrcs: Config)
      ensures this.mrcs == mrcs
    {
      this.mrcs := mrcs;
    }

    /** Lists the MRCs in an arbitrary order. */
    method List() returns (list: seq<MRC>)
      ensures IsListing(list, mrcs)
    {
      list := [];
      var todo := mrcs.Keys;
      while todo != {}
        invariant todo <= mrcs.Keys && DistinctNames(list)
        invariant forall m :: m in list <==> m.name in mrcs.Keys - todo && m == mrcs[m.name]
        decreases |todo|
      {
        var n :| n in todo;
        assert forall i :: 0 <= i < |list| ==> list[i] in list;
        list := list + [mrcs[n]];
        todo := todo - {n};
      }
    }

    method Get(name: string) returns (r: Result<MRC, CliError>)
      ensures r == if name in mrcs then Ok(mrcs[name]) else Err(NotFound)
    {
      r := if name in mrcs then Ok(mrcs[name]) else Err(NotFound);
    }

    method Create(mrc: MRC) returns (err: Option<CliError>)
      modifies this
      ensures err.None? ==> mrc.name !in old(mrcs) && mrcs == old(mrcs)[mrc.name := mrc]
      ensures err.Some? ==> mrcs == old(mrcs)
      ensures mrc.name !in old(mrcs) && mrc.role == Inactive ==>
                (err.None? <==> mrc.trustDomain != "" && IsComplete(mrc.provider))
      ensures err == Some(AlreadyExists) <==> mrc.name in old(mrcs)
      ensures err.Some? ==> err.value == AlreadyExists || err.value.Rejected?
    {
      if mrc.name in mrcs {
        return Some(AlreadyExists);
      }
      var list := List();
      var verdict := ValidateMRCOnCreate(list, mrc);
      if verdict.Some? {
        return Some(Rejected(verdict.value));
      }
      mrcs := mrcs[mrc.name := mrc];
      return None;
    }

    /** updateCertificate: reads the MRC, sets its role and writes it back through the webhook. */
    method UpdateCertificate(name: string, role: Role) returns (err: Option<CliError>)
      modifies this
      ensures err.None? <==> RoleUpdateOk(old(mrcs), name, role)
      ensures mrcs == if err.None? then SetRole(old(mrcs), name, role) else old(mrcs)
      ensures err == Some(NotFound) <==> name !in old(mrcs)
    {
      if name !in mrcs {
        return Some(NotFound);
      }
      var mrc := mrcs[name].(role := role);
      var list := List();
      UpdateAdmittedIff(mrcs, list, mrc);
      var verdict := ValidateMRCOnUpdate(list, mrcs[name], mrc);
      if verdict.Some? {
        return Some(Rejected(verdict.value));
      }
      mrcs := mrcs[name := mrc];
      return None;
    }

    method Delete(name: string)
      modifies this
      ensures mrcs == old(mrcs) - {name}
    {
      mrcs := mrcs - {name};
    }
  }

  /** findCurrentInUse: succeeds exactly when one MRC is in use and it is Active. */
  method FindCurrentInUse(list: seq<MRC>, ghost cfg: Config) returns (r: Result<MRC, CliError>)
    requires IsListing(list, cfg)
    ensures r.Ok? ==> PermittedNames(cfg, r.value.name, r.value.name) && cfg[r.value.name] == r.value
    ensures r.Err? ==> r.error == NotOneActive && forall n :: !PermittedNames(cfg, n, n)
  {
    var active: Option<MRC> := None;
    for i := 0 to |list|
      invariant active.Some? ==> active.value in list[..i] && active.value.role == Active
      invariant forall m :: m in list[..i] && m.role != Inactive ==> active == Some(m)
    {
      var mrc := list[i];
      assert mrc in list;
      if mrc.role == Active {
        if active.Some? {
          TwoInUse(list, cfg, active.value, mrc);
          return Err(NotOneActive);
        }
        active := Some(mrc);
      }
      if mrc.role == Passive {
        PassiveInUse(cfg, mrc.name);
        return Err(NotOneActive);
      }
    }
    assert list[..|list|] == list;
    match active {
      case None =>
        NoneInUse(list, cfg);
        return Err(NotOneActive);
      case Some(mrc) =>
        OneInUse(list, cfg, mrc);
        return Ok(mrc);
    }
  }

  lemma TwoInUse(list: seq<MRC>, cfg: Config, a: MRC, b: MRC)
    requires IsListing(list, cfg) && a in list && b in list && a.name != b.name && a.role != Inactive
    requires b.role != Inactive
    ensures forall n :: !PermittedNames(cfg, n, n)
  {
    assert a.name in InUse(cfg) && b.name in InUse(cfg);
  }

  lemma PassiveInUse(cfg: Config, name: string)
    requires name in cfg && cfg[name].role == Passive
    ensures forall n :: !PermittedNames(cfg, n, n)
  {
    assert name in InUse(cfg);
  }

  lemma NoneInUse(list: seq<MRC>, cfg: Config)
    requires IsListing(list, cfg) && forall m :: m in list ==> m.role == Inactive
    ensures forall n :: !PermittedNames(cfg, n, n)
  {
  }

  lemma OneInUse(list: seq<MRC>, cfg: Config, a: MRC)
    requires IsListing(list, cfg) && a in list && a.role == Active && forall m :: m in list && m.role != Inactive ==>
        m == a
    ensures PermittedNames(cfg, a.name, a.name)
  {
    assert a.name in InUse(cfg);
    forall n | n in InUse(cfg)
      ensures n == a.name
    {
      assert cfg[n] in list;
    }
  }

  /** The MRC to rotate to: an existing one; one read from a file, if the file holds one; or one that the command
      creates for the Tresor provider under a generated name and secret. An empty trust domain keeps the current one;
      `root` is the root that Tresor puts in the secret. */
  datatype Target =
    | Existing(name: string)
    | FromFile(file: Option<MRC>)
    | CreateTresor(name: string, secret: SecretRef, newTrustDomain: string, root: Root)

  function TargetName(target: Target): string {
    match target
    case Existing(name) => name
    case FromFile(file) => if file.Some? then file.value.name else ""
    case CreateTresor(name, _, _, _) => name
  }

  /** createTresorMRC */
  function TresorMRC(target: Target, current: MRC): MRC
    requires target.CreateTresor?
  {
    var trustDomain := if target.newTrustDomain != "" then target.newTrustDomain else current.trustDomain;
    MRC(target.name, Inactive, trustDomain, false, Provider(Some(target.secret), None, None, target.root))
  }

  /** The new MRC is Inactive, has the requested trust domain or else the current one, has SPIFFE off, and is of the
      Tresor provider with the generated secret. */
  predicate IsNewTresorMRC(mrc: MRC, target: Target, current: MRC)
    requires target.CreateTresor?
  {
    && mrc.name == target.name && mrc.role == Inactive && !mrc.spiffeEnabled
    && (target.newTrustDomain != "" ==> mrc.trustDomain == target.newTrustDomain)
    && (target.newTrustDomain == "" ==> mrc.trustDomain == current.trustDomain)
    && mrc.provider.tresor == Some(target.secret) && mrc.provider.root == target.root
    && mrc.provider.vault.None? && mrc.provider.certManager.None?
  }

  /** The configuration once the target is in place. */
  function Prepared(cfg: Config, target: Target, from: string): Config
    requires from in cfg
  {
    if target.CreateTresor? then cfg[target.name := TresorMRC(target, cfg[from])] else cfg
  }

  /** The target can be used: it exists and is Inactive, or the current MRC is of the Tresor provider and the webhook
      admits a new one. A file is never used: the command takes the error of looking up a new name for a failure. */
  predicate TargetOk(cfg: Config, target: Target, from: string)
    requires from in cfg
  {
    match target
    case Existing(name) => name in cfg && cfg[name].role == Inactive
    case FromFile(_) => false
    case CreateTresor(name, secret, _, _) =>
      && cfg[from].provider.tresor.Some? && name !in cfg
      && (target.newTrustDomain != "" || cfg[from].trustDomain != "") && secret.name != "" && secret.namespace != ""
  }

  /** createFromFile: reads the MRC, checks its role, and creates it if looking up its name gives neither an error
      nor an MRC. */
  method CreateFromFile(cluster: Cluster, file: Option<MRC>) returns (err: Option<CliError>)
    modifies cluster
    ensures cluster.mrcs == old(cluster.mrcs)
    ensures err == Some(
              if file.None? then CannotCreate
              else if file.value.role != Inactive then TargetNotInactive
              else if file.value.name !in cluster.mrcs then NotFound
              else AlreadyExists)
  {
    match file {
      case None =>
        return Some(CannotCreate);
      case Some(mrc) =>
        if mrc.role != Inactive {
          return Some(TargetNotInactive);
        }
        var existing := cluster.Get(mrc.name);
        if existing.Err? {
          return Some(existing.error);
        }
        return Some(AlreadyExists);
    }
  }

  /** getNewMRCforRotation, with the name of the current MRC. */
  method GetNewMRCForRotation(cluster: Cluster, target: Target, from: string) returns (err: Option<CliError>)
    requires from in cluster.mrcs
    modifies cluster
    ensures err.None? <==> TargetOk(old(cluster.mrcs), target, from)
    ensures cluster.mrcs == if err.None? then Prepared(old(cluster.mrcs), target, from) else old(cluster.mrcs)
    ensures err.None? && target.CreateTresor? ==>
              target.name in cluster.mrcs && IsNewTresorMRC(cluster.mrcs[target.name], target, old(cluster.mrcs)[from])
    ensures target.Existing? && err.Some? ==>
              err.value == if target.name !in old(cluster.mrcs) then NotFound else TargetNotInactive
    ensures err != Some(NotEnabled)
    ensures target.CreateTresor? ==> (err == Some(CannotCreate) <==> old(cluster.mrcs)[from].provider.tresor.None?)
  {
    match target {
      case Existing(name) =>
        var existing := cluster.Get(name);
        if existing.Err? {
          return Some(existing.error);
        }
        return if existing.value.role != Inactive then Some(TargetNotInactive) else None;
      case FromFile(file) =>
        err := CreateFromFile(cluster, file);
      case CreateTresor(_, _, _, _) =>
        if cluster.mrcs[from].provider.tresor.None? {
          return Some(CannotCreate);
        }
        err := cluster.Create(TresorMRC(target, cluster.mrcs[from]));
    }
  }

  /** How a run of the command ends: with an error before any role update, at a prompt after `stage` updates, or
      completed. */
  datatype Outcome = Failed(error: CliError) | Stopped(from: string, stage: nat) | Completed(from: string,
    deleted: bool)

  /** One MRC is in use, it is Active, and the target can be used. */
  ghost predicate CanRotate(cfg: Config, target: Target) {
    exists n :: PermittedNames(cfg, n, n) && TargetOk(cfg, target, n)
  }

  /** The first `n` prompts are answered with yes. */
  predicate Confirmed(prompt: nat -> bool, n: nat) {
    n == 0 || (Confirmed(prompt, n - 1) && prompt(n - 1))
  }

  /** run: `prompt(i)` is the answer to the i-th prompt. No role update that the command issues is rejected, so that it
      fails only before the first one; stopping at any prompt leaves a valid configuration; and completing leaves the
      target alone in use. */
  method Run(cluster: Cluster, enabled: bool, target: Target, deleteOld: bool, prompt: nat -> bool)
    returns (outcome: Outcome)
    modifies cluster
    ensures outcome.Failed? <==> !enabled || (prompt(0) && !CanRotate(old(cluster.mrcs), target))
    ensures outcome == Failed(NotEnabled) <==> !enabled
    ensures outcome.Failed? || (outcome.Stopped? && !prompt(0)) ==> cluster.mrcs == old(cluster.mrcs)
    ensures outcome.Stopped? && prompt(0) ==>
              var was, from := old(cluster.mrcs), outcome.from;
              && Confirmed(prompt, outcome.stage + 1) && !prompt(outcome.stage + 1) && outcome.stage < 4
              && from in was && CanStart(Prepared(was, target, from), from, TargetName(target))
              && cluster.mrcs == Stage(Prepared(was, target, from), from, TargetName(target), outcome.stage) &&
                ValidConfig(cluster.mrcs)
    ensures outcome.Completed? ==>
              var was, from := old(cluster.mrcs), outcome.from;
              && Confirmed(prompt, 5) && outcome.deleted == (deleteOld && prompt(5))
              && from in was && CanStart(Prepared(was, target, from), from, TargetName(target))
              && cluster.mrcs == Stage(Prepared(was, target, from), from, TargetName(target),
                4) - (if outcome.deleted then {from} else {})
              && PermittedNames(cluster.mrcs, TargetName(target), TargetName(target))
  {
    if !enabled {
      return Failed(NotEnabled);
    }
    if !prompt(0) {
      return Stopped("", 0);
    }
    var from := PrepareRotation(cluster, target);
    if from.Err? {
      return Failed(from.error);
    }
    outcome := RunPlan(cluster, from.value, TargetName(target), deleteOld, prompt);
  }

  /** Finds the current MRC and puts the target in place. */
  method PrepareRotation(cluster: Cluster, target: Target) returns (r: Result<string, CliError>)
    modifies cluster
    ensures r.Err? <==> !CanRotate(old(cluster.mrcs), target)
    ensures r.Err? ==> cluster.mrcs == old(cluster.mrcs) && r.error != NotEnabled
    ensures r.Ok? ==>
              && r.value in old(cluster.mrcs) && cluster.mrcs == Prepared(old(cluster.mrcs), target, r.value)
              && CanStart(cluster.mrcs, r.value, TargetName(target))
  {
    var list := cluster.List();
    var inUse := FindCurrentInUse(list, cluster.mrcs);
    if inUse.Err? {
      return Err(inUse.error);
    }
    var from := inUse.value.name;
    var err := GetNewMRCForRotation(cluster, target, from);
    OnlyOneInUse(old(cluster.mrcs), from);
    if err.Some? {
      return Err(err.value);
    }
    StartAfterPreparing(old(cluster.mrcs), target, from);
    return Ok(from);
  }

  lemma OnlyOneInUse(cfg: Config, from: string)
    requires PermittedNames(cfg, from, from)
    ensures forall n :: PermittedNames(cfg, n, n) ==> n == from
  {
    forall n | PermittedNames(cfg, n, n)
      ensures n == from
    {
      assert n in InUse(cfg);
    }
  }

  /** The four role updates, each after its prompt, and the deletion. */
  method RunPlan(cluster: Cluster, from: string, to: string, deleteOld: bool, prompt: nat -> bool)
    returns (outcome: Outcome)
    requires CanStart(cluster.mrcs, from, to) && prompt(0)
    modifies cluster
    ensures !outcome.Failed? && outcome.from == from
    ensures outcome.Stopped? ==>
              && Confirmed(prompt, outcome.stage + 1) && !prompt(outcome.stage + 1) && outcome.stage < 4
              && cluster.mrcs == Stage(old(cluster.mrcs), from, to, outcome.stage) && ValidConfig(cluster.mrcs)
    ensures outcome.Completed? ==>
              && Confirmed(prompt, 5) && outcome.deleted == (deleteOld && prompt(5))
              && cluster.mrcs == Stage(old(cluster.mrcs), from, to, 4) - (if outcome.deleted then {from} else {})
              && PermittedNames(cluster.mrcs, to, to)
  {
    ghost var cfg := cluster.mrcs;
    var stage := UpdateRoles(cluster, from, to, prompt);
    StageIsValid(cfg, from, to, stage);
    if stage < 4 {
      return Stopped(from, stage);
    }
    var deleted := deleteOld && prompt(5);
    if deleted {
      DeletedKeepsTarget(cfg, from, to);
      cluster.Delete(from);
    }
    return Completed(from, deleted);
  }

  /** Runs until a prompt is answered with no. */
  method UpdateRoles(cluster: Cluster, from: string, to: string, prompt: nat -> bool) returns (stage: nat)
    requires CanStart(cluster.mrcs, from, to) && prompt(0)
    modifies cluster
    ensures stage <= 4 && Confirmed(prompt, stage + 1) && (stage < 4 ==> !prompt(stage + 1))
    ensures cluster.mrcs == Stage(old(cluster.mrcs), from, to, stage)
  {
    ghost var cfg := cluster.mrcs;
    PlannedUpdate(cfg, from, to, 0);
    stage := 0;
    while stage < 4 && prompt(stage + 1)
      invariant stage <= 4 && Confirmed(prompt, stage + 1)
      invariant cluster.mrcs == Stage(cfg, from, to, stage)
    {
      UpdateRole(cluster, from, to, stage, cfg);
      stage := stage + 1;
    }
  }

  /** The next update of the plan, which the webhook admits. */
  method UpdateRole(cluster: Cluster, from: string, to: string, stage: nat, ghost cfg: Config)
    requires CanStart(cfg, from, to) && stage < 4 && cluster.mrcs == Stage(cfg, from, to, stage)
    modifies cluster
    ensures cluster.mrcs == Stage(cfg, from, to, stage + 1)
  {
    var update := Plan(from, to)[stage];
    PlannedRoleUpdateOk(cfg, from, to, stage);
    var err := cluster.UpdateCertificate(update.name, update.role);
    assert err.None?;
  }

  lemma StartAfterPreparing(cfg: Config, target: Target, from: string)
    requires PermittedNames(cfg, from, from) && TargetOk(cfg, target, from)
    ensures CanStart(Prepared(cfg, target, from), from, TargetName(target))
  {
    assert InUse(Prepared(cfg, target, from)) == InUse(cfg);
  }

  lemma PlannedRoleUpdateOk(cfg: Config, from: string, to: string, k: nat)
    requires CanStart(cfg, from, to) && k < 4
    ensures var r, u := Stage(cfg, from, to, k), Plan(from, to)[k];
            RoleUpdateOk(r, u.name, u.role) && SetRole(r, u.name, u.role) == Stage(cfg, from, to, k + 1)
  {
    PlannedUpdate(cfg, from, to, k);
    StageIsValid(cfg, from, to, k + 1);
  }

  lemma DeletedKeepsTarget(cfg: Config, from: string, to: string)
    requires CanStart(cfg, from, to)
    ensures PermittedNames(Stage(cfg, from, to, 4) - {from}, to, to)
  {
    StageInUse(cfg, from, to, 4);
    assert InUse(Stage(cfg, from, to, 4) - {from}) == InUse(Stage(cfg, from, to, 4));
  }
}
