/**
 * The Secrets a deployment's environments are projected into: how they are named, and what `apply`,
 * `rotate` and `clean` do to the cluster.
 */
module AppSecrets {
  import opened Wrappers

  // ----- names -------------------------------------------------------------------------------

  function Prefix(deployId: string, instanceId: string): string {
    if instanceId == "" then deployId else deployId + "-" + instanceId
  }

  function ScopeName(scope: string): string {
    if scope == "" then "env" else scope
  }

  function AppSecretName(deployId: string, env: string, instanceId: string, scope: string): string {
    Prefix(deployId, instanceId) + "-" + env + "-" + ScopeName(scope)
  }

  /** What one projection of a deployment addresses. */
  datatype Target = Target(instanceId: string, env: string, scope: string)

  ghost predicate Clear(t: Target) {
    '-' !in t.env && '-' !in t.scope && t.scope != "env"
  }

  /** A text is split in one way at its last hyphen. */
  lemma {:induction false} LastHyphen(a: string, b: string, c: string, d: string)
    requires a + "-" + b == c + "-" + d && '-' !in b && '-' !in d
    ensures a == c && b == d
  {
    var s, r := a + "-" + b, c + "-" + d;
    assert s[|a|] == '-' && r[|c|] == '-';
    assert forall k :: |a| < k < |s| ==> s[k] == b[k - |a| - 1];
    assert forall k :: |c| < k < |r| ==> r[k] == d[k - |c| - 1];
    assert |a| == |c|;
    assert a == s[..|a|] && c == r[..|c|] && b == s[|a| + 1..] && d == r[|c| + 1..];
  }

  /** For one deployment, distinct clear targets have distinct Secret names. */
  lemma {:induction false} NamesAreDistinct(deployId: string, t: Target, u: Target)
    requires Clear(t) && Clear(u)
    requires AppSecretName(deployId, t.env, t.instanceId, t.scope)
        == AppSecretName(deployId, u.env, u.instanceId, u.scope)
    ensures t == u
  {
    LastHyphen(Prefix(deployId, t.instanceId) + "-" + t.env, ScopeName(t.scope),
               Prefix(deployId, u.instanceId) + "-" + u.env, ScopeName(u.scope));
    LastHyphen(Prefix(deployId, t.instanceId), t.env, Prefix(deployId, u.instanceId), u.env);
    var p, q := Prefix(deployId, t.instanceId), Prefix(deployId, u.instanceId);
    if t.instanceId != "" { assert t.instanceId == p[|deployId| + 1..]; }
    if u.instanceId != "" { assert u.instanceId == q[|deployId| + 1..]; }
  }

  /** Each condition is needed: a hyphen in an environment, and the scope called `env`, make names meet. */
  lemma UnclearTargetsMeet(deployId: string)
    ensures AppSecretName(deployId, "b-c", "a", "") == AppSecretName(deployId, "c", "a-b", "")
    ensures AppSecretName(deployId, "c", "", "env") == AppSecretName(deployId, "c", "", "")
  {
    assert deployId + "-" + "a" + "-" + "b-c" == deployId + "-" + "a-b" + "-" + "c";
  }

  /** Across deployments an instance and a deployment of the joined name meet. */
  lemma DeploymentsMeet(deployId: string, instanceId: string, env: string)
    requires instanceId != ""
    ensures AppSecretName(deployId, env, instanceId, "") == AppSecretName(deployId + "-" + instanceId, env, "", "")
  {
  }

  // ----- commands ----------------------------------------------------------------------------

  /** The Secrets of a cluster, by namespace and name. */
  type Cluster = map<(string, string), string>

  /**
   * One invocation. `source`: the content of the environment it resolves, absent when the file is;
   * `entitled`: the scope is one that may read keys. A call of the cluster that fails throws and ends the command:
   * `cleared` is whether the delete of `rotate` or `clean` went through, `deleted` and `created` whether the delete
   * and the create of `apply` did.
   */
  datatype Call = Call(
    deployId: string, namespace: string, target: Target, source: Option<string>, entitled: bool,
    cleared: bool, deleted: bool, created: bool, dryRun: bool, force: bool)

  datatype Command = Apply(c: Call) | Rotate(c: Call) | Clean(c: Call)

  function KeyOf(c: Call): (string, string) {
    (c.namespace, AppSecretName(c.deployId, c.target.env, c.target.instanceId, c.target.scope))
  }

  /** The name `rotate` and `clean` build: the scope is left out. */
  function UnscopedKey(c: Call): (string, string) {
    (c.namespace, AppSecretName(c.deployId, c.target.env, c.target.instanceId, ""))
  }

  /** `apply` gets past its checks. */
  predicate Accepted(c: Call) {
    c.source.Some? && (c.target.scope != "" ==> c.entitled)
  }

  /** `project`: the lines of an environment a scope receives. */
  function ApplyTo(cluster: Cluster, c: Call, project: (string, string) -> string): Cluster {
    if !Accepted(c) || c.dryRun || !c.deleted then cluster
    else
      var deleted := cluster - {KeyOf(c)};
      if c.created then deleted[KeyOf(c) := project(c.source.value, c.target.scope)] else deleted
  }

  function RotateOn(cluster: Cluster, c: Call, project: (string, string) -> string): Cluster {
    if c.dryRun || !c.cleared then cluster else ApplyTo(cluster - {UnscopedKey(c)}, c, project)
  }

  function CleanOn(cluster: Cluster, c: Call): Cluster {
    if c.dryRun || !c.force || !c.cleared then cluster else cluster - {UnscopedKey(c)}
  }

  function Exec(cluster: Cluster, cmd: Command, project: (string, string) -> string): Cluster {
    match cmd
    case Apply(c) => ApplyTo(cluster, c, project)
    case Rotate(c) => RotateOn(cluster, c, project)
    case Clean(c) => CleanOn(cluster, c)
  }

  /**
   * `rotate` whose delete goes through ends where `apply` ends if and only if there was no unscoped Secret, or it
   * addresses the unscoped one and `apply` gets to its own delete. Otherwise the Secret it deleted is not put back.
   * A delete that throws leaves the cluster as it was.
   */
  lemma {:induction false} RotateEndsLikeApplyExactly(cluster: Cluster, c: Call, project: (string, string) -> string)
    requires !c.dryRun
    ensures !c.cleared ==> RotateOn(cluster, c, project) == cluster
    ensures c.cleared ==>
      (RotateOn(cluster, c, project) == ApplyTo(cluster, c, project) <==>
       UnscopedKey(c) !in cluster || (KeyOf(c) == UnscopedKey(c) && Accepted(c) && c.deleted))
  {
    var deleted := cluster - {UnscopedKey(c)};
    if UnscopedKey(c) !in cluster {
      assert deleted == cluster;
    } else if Accepted(c) && c.deleted {
      if KeyOf(c) == UnscopedKey(c) {
        assert deleted - {KeyOf(c)} == cluster - {KeyOf(c)};
      } else if c.cleared {
        assert UnscopedKey(c) in ApplyTo(cluster, c, project) && UnscopedKey(c) !in RotateOn(cluster, c, project);
      }
    } else {
      assert UnscopedKey(c) !in deleted;
    }
  }

  /** From any cluster, the unscoped `rotate` in which nothing throws ends with what one `apply` would write. */
  lemma {:induction false} RotateForgetsTheCluster(a: Cluster, b: Cluster, c: Call, project: (string, string) -> string)
    requires !c.dryRun && KeyOf(c) == UnscopedKey(c) && Accepted(c) && c.cleared && c.deleted
    ensures SameAt(RotateOn(a, c, project), ApplyTo(b, c, project), KeyOf(c))
  {
  }

  // ----- isolation over runs -----------------------------------------------------------------

  /** The commands whose own Secret is the one they touch: `apply`, and unscoped `rotate` and `clean`. */
  ghost predicate OwnOnly(deployId: string, cmd: Command) {
    && cmd.c.deployId == deployId && Clear(cmd.c.target)
    && (cmd.Rotate? || cmd.Clean? ==> cmd.c.target.scope == "")
  }

  ghost predicate Addresses(cmd: Command, namespace: string, t: Target) {
    cmd.c.namespace == namespace && cmd.c.target == t
  }

  function RunAll(cluster: Cluster, cmds: seq<Command>, project: (string, string) -> string): Cluster {
    if cmds == [] then cluster
    else Exec(RunAll(cluster, cmds[..|cmds| - 1], project), cmds[|cmds| - 1], project)
  }

  ghost function Only(cmds: seq<Command>, namespace: string, t: Target): seq<Command> {
    if cmds == [] then []
    else
      var n := |cmds| - 1;
      Only(cmds[..n], namespace, t) + if Addresses(cmds[n], namespace, t) then [cmds[n]] else []
  }

  ghost predicate SameAt(a: Cluster, b: Cluster, key: (string, string)) {
    (key in a <==> key in b) && (key in a ==> a[key] == b[key])
  }

  lemma {:induction false} OtherTargetUntouched(deployId: string, cluster: Cluster, cmd: Command, namespace: string,
      t: Target, project: (string, string) -> string)
    requires OwnOnly(deployId, cmd) && Clear(t) && !Addresses(cmd, namespace, t)
    ensures SameAt(Exec(cluster, cmd, project), cluster,
                   (namespace, AppSecretName(deployId, t.env, t.instanceId, t.scope)))
  {
    if KeyOf(cmd.c) == (namespace, AppSecretName(deployId, t.env, t.instanceId, t.scope)) {
      NamesAreDistinct(deployId, cmd.c.target, t);
    }
  }

  /** Clusters that agree at one key agree there after the same command. */
  lemma {:induction false} SameStep(a: Cluster, b: Cluster, cmd: Command, key: (string, string),
      project: (string, string) -> string)
    requires SameAt(a, b, key)
    ensures SameAt(Exec(a, cmd, project), Exec(b, cmd, project), key)
  {
  }

  lemma {:induction false} SameThrough(a: Cluster, b: Cluster, c: Cluster, key: (string, string))
    requires SameAt(a, b, key) && SameAt(b, c, key)
    ensures SameAt(a, c, key)
  {
  }

  lemma {:induction false} RunNext(cluster: Cluster, cmds: seq<Command>, cmd: Command,
      project: (string, string) -> string)
    ensures RunAll(cluster, cmds + [cmd], project) == Exec(RunAll(cluster, cmds, project), cmd, project)
  {
    assert (cmds + [cmd])[..|cmds|] == cmds;
  }

  /** The Secret of a target. */
  function SecretOf(deployId: string, namespace: string, t: Target): (string, string) {
    (namespace, AppSecretName(deployId, t.env, t.instanceId, t.scope))
  }

  lemma {:induction false} LastIsolated(deployId: string, a: Cluster, b: Cluster, cmd: Command, namespace: string,
      t: Target, project: (string, string) -> string)
    requires OwnOnly(deployId, cmd) && Clear(t) && SameAt(a, b, SecretOf(deployId, namespace, t))
    ensures SameAt(Exec(a, cmd, project), if Addresses(cmd, namespace, t) then Exec(b, cmd, project) else b,
                   SecretOf(deployId, namespace, t))
  {
    var key := SecretOf(deployId, namespace, t);
    if Addresses(cmd, namespace, t) {
      SameStep(a, b, cmd, key, project);
    } else {
      OtherTargetUntouched(deployId, a, cmd, namespace, t, project);
      SameThrough(Exec(a, cmd, project), a, b, key);
    }
  }

  lemma {:induction false} OnlyNext(cluster: Cluster, cmds: seq<Command>, namespace: string, t: Target,
      project: (string, string) -> string)
    requires cmds != []
    ensures var last, own := cmds[|cmds| - 1], RunAll(cluster, Only(cmds[..|cmds| - 1], namespace, t), project);
      RunAll(cluster, Only(cmds, namespace, t), project)
        == if Addresses(last, namespace, t) then Exec(own, last, project) else own
  {
    var own := Only(cmds[..|cmds| - 1], namespace, t);
    RunNext(cluster, own, cmds[|cmds| - 1], project);
    assert own + [] == own;
  }

  /**
   * Isolation over every run of one deployment: what the Secret of a target holds at the end is decided by the
   * commands that address that target, as if no other had run.
   */
  lemma {:induction false} SecretsAreIsolated(deployId: string, cluster: Cluster, cmds: seq<Command>, namespace: string,
      t: Target, project: (string, string) -> string)
    requires Clear(t) && forall k :: 0 <= k < |cmds| ==> OwnOnly(deployId, cmds[k])
    ensures SameAt(RunAll(cluster, cmds, project), RunAll(cluster, Only(cmds, namespace, t), project),
                   SecretOf(deployId, namespace, t))
  {
    if cmds != [] {
      var n := |cmds| - 1;
      SecretsAreIsolated(deployId, cluster, cmds[..n], namespace, t, project);
      LastIsolated(deployId, RunAll(cluster, cmds[..n], project),
                   RunAll(cluster, Only(cmds[..n], namespace, t), project),
                   cmds[n], namespace, t, project);
      OnlyNext(cluster, cmds, namespace, t, project);
    }
  }

  // ----- the domain --------------------------------------------------------------------------

  class AppDomain {
    var cluster: Cluster
    const project: (string, string) -> string

    constructor (project: (string, string) -> string)
      ensures cluster == map[] && this.project == project
    {
      cluster := map[];
      this.project := project;
    }

    /** `kubectl delete secret`; with `ok` false it throws. */
    method DeleteSecret(key: (string, string), ok: bool)
      modifies this`cluster
      ensures cluster == if ok then old(cluster) - {key} else old(cluster)
    {
      if ok { cluster := cluster - {key}; }
    }

    /** Delete, then create: converges on the current source. False when the call throws. */
    method ApplySecret(c: Call) returns (ok: bool)
      modifies this`cluster
      ensures cluster == ApplyTo(old(cluster), c, project)
      ensures ok <==> Accepted(c) && (c.dryRun || (c.deleted && c.created))
    {
      if c.source.None? { return false; }
      if c.target.scope != "" && !c.entitled { return false; }
      if c.dryRun { return true; }
      DeleteSecret(KeyOf(c), c.deleted);
      if !c.deleted { return false; }
      if c.created { cluster := cluster[KeyOf(c) := project(c.source.value, c.target.scope)]; }
      return c.created;
    }

    method RotateSecret(c: Call) returns (ok: bool)
      modifies this`cluster
      ensures cluster == RotateOn(old(cluster), c, project)
      ensures ok <==> c.dryRun || (c.cleared && Accepted(c) && c.deleted && c.created)
    {
      if c.dryRun { return true; }
      DeleteSecret(UnscopedKey(c), c.cleared);
      if !c.cleared { return false; }
      ok := ApplySecret(c);
    }

    method CleanSecret(c: Call) returns (ok: bool)
      modifies this`cluster
      ensures cluster == CleanOn(old(cluster), c)
      ensures ok <==> c.dryRun || !c.force || c.cleared
    {
      if c.dryRun || !c.force { return true; }
      DeleteSecret(UnscopedKey(c), c.cleared);
      return c.cleared;
    }
  }
}
