/** The four role updates that move a mesh from one root certificate to another. */
module RotationPlan {
  import opened MeshRootCertificates
  import opened Webhook

  datatype RoleUpdate = RoleUpdate(name: string, role: Role)

  /** The updates in order: the new MRC becomes Passive, then Active; the old one becomes Passive, then Inactive. */
  function Plan(from: string, to: string): seq<RoleUpdate> {
    [RoleUpdate(to, Passive), RoleUpdate(to, Active), RoleUpdate(from, Passive), RoleUpdate(from, Inactive)]
  }

  /** The update as the API server sees it. */
  function AsChange(cfg: Config, u: RoleUpdate): Change
    requires u.name in cfg
  {
    Update(cfg[u.name].(role := u.role))
  }

  function SetRole(cfg: Config, name: string, role: Role): Config
    requires name in cfg
  {
    cfg[name := cfg[name].(role := role)]
  }

  function FromRole(k: nat): Role {
    if k <= 2 then Active else if k == 3 then Passive else Inactive
  }

  function ToRole(k: nat): Role {
    if k == 0 then Inactive else if k == 1 then Passive else Active
  }

  /** The configuration after the first `k` updates of the plan. */
  function Stage(cfg: Config, from: string, to: string, k: nat): Config
    requires from in cfg && to in cfg
  {
    WithRoles(cfg, from, FromRole(k), to, ToRole(k))
  }

  function WithRoles(cfg: Config, from: string, fromRole: Role, to: string, toRole: Role): Config
    requires from in cfg && to in cfg
  {
    cfg[from := cfg[from].(role := fromRole)][to := cfg[to].(role := toRole)]
  }

  lemma OverwriteFirst<T>(m: map<string, T>, a: string, x: T, b: string, y: T, z: T)
    requires a != b
    ensures m[a := x][b := y][a := z] == m[a := z][b := y]
  {
  }

  lemma OverwriteSecond<T>(m: map<string, T>, a: string, x: T, b: string, y: T, z: T)
    ensures m[a := x][b := y][b := z] == m[a := x][b := z]
  {
  }

  /** Where a rotation starts: one MRC in use, which is Active, and an Inactive one to move to. */
  predicate CanStart(cfg: Config, from: string, to: string) {
    PermittedNames(cfg, from, from) && to in cfg && cfg[to].role == Inactive
  }

  lemma StageInUse(cfg: Config, from: string, to: string, k: nat)
    requires CanStart(cfg, from, to)
    ensures InUse(Stage(cfg, from, to, k)) == (if k < 4 then {from} else {}) + (if k > 0 then {to} else {})
  {
    assert forall n :: n in cfg && n != from ==> n !in InUse(cfg);
  }

  /** Every stage of the plan is a valid configuration, and the last has the new MRC alone in use. */
  lemma StageIsValid(cfg: Config, from: string, to: string, k: nat)
    requires CanStart(cfg, from, to) && k <= 4
    ensures ValidConfig(Stage(cfg, from, to, k))
    ensures k == 4 ==> PermittedNames(Stage(cfg, from, to, k), to, to)
  {
    StageInUse(cfg, from, to, k);
    var s := if k <= 2 then from else to;
    var v := if k == 0 then from else if k == 4 then to else if k <= 2 then to else from;
    assert PermittedNames(Stage(cfg, from, to, k), s, v);
  }

  /** The plan's updates lead from stage to stage, and each starts or ends in the Passive role. */
  lemma PlannedUpdate(cfg: Config, from: string, to: string, k: nat)
    requires CanStart(cfg, from, to) && k < 4
    ensures Stage(cfg, from, to, 0) == cfg
    ensures var r, u := Stage(cfg, from, to, k), Plan(from, to)[k];
            Stage(cfg, from, to, k + 1) == SetRole(r, u.name, u.role) && Passive in {r[u.name].role, u.role}
  {
    assert WithRoles(cfg, from, Active, to, Inactive) == cfg;
    var f, t := cfg[from].(role := FromRole(k)), cfg[to].(role := ToRole(k));
    if k < 2 {
      OverwriteSecond(cfg, from, f, to, t, cfg[to].(role := ToRole(k + 1)));
    } else {
      OverwriteFirst(cfg, from, f, to, t, cfg[from].(role := FromRole(k + 1)));
    }
  }

  /** Every update of the plan is admitted, however the webhook's client orders its list. */
  lemma PlannedUpdateIsAdmitted(cfg: Config, from: string, to: string, k: nat, list: seq<MRC>)
    requires CanStart(cfg, from, to) && k < 4 && IsListing(list, Stage(cfg, from, to, k))
    ensures var r := Stage(cfg, from, to, k);
            Admitted(r, list, AsChange(r, Plan(from, to)[k])) &&
              Apply(r, AsChange(r, Plan(from, to)[k])) == Stage(cfg, from, to, k + 1)
  {
    var r, u := Stage(cfg, from, to, k), Plan(from, to)[k];
    PlannedUpdate(cfg, from, to, k);
    StageIsValid(cfg, from, to, k + 1);
    UpdateAdmittedIff(r, list, r[u.name].(role := u.role));
  }
}
