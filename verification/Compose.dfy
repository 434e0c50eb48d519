/**
 * The files of the Docker Compose workflow: what `generate`, `reset` and one invocation of the command write,
 * keep and remove, and the compose command each invocation ends with.
 */
module Compose {
  import opened Wrappers

  // ----- the file tree -----------------------------------------------------------------------

  /** The names from the file-system root down to a file or directory. */
  type Path = seq<string>

  datatype Tree = Tree(files: map<Path, string>, dirs: set<Path>)

  predicate Exists(t: Tree, p: Path) {
    p in t.files || p in t.dirs
  }

  function At(t: Tree, p: Path): Option<string> {
    if p in t.files then Some(t.files[p]) else None
  }

  /** The directories a path lies in. */
  function Ancestors(p: Path): set<Path> {
    set k | 0 <= k < |p| :: p[..k]
  }

  /** No path is both a file and a directory. */
  ghost predicate Consistent(t: Tree) {
    t.files.Keys !! t.dirs
  }

  /** One write: with the directories above it or without, always or only where nothing exists yet. */
  datatype Step = Step(path: Path, text: string, makesDirs: bool, onlyIfMissing: bool)

  /** A write that does not throw: nothing above the path is a file, and the path is not a directory. */
  predicate Writable(t: Tree, s: Step) {
    && s.path != []
    && s.path !in t.dirs
    && if s.makesDirs then Ancestors(s.path) !! t.files.Keys else s.path[..|s.path| - 1] in t.dirs
  }

  predicate Skipped(t: Tree, s: Step) {
    s.onlyIfMissing && Exists(t, s.path)
  }

  function Put(t: Tree, s: Step): Tree {
    Tree(t.files[s.path := s.text], if s.makesDirs then t.dirs + Ancestors(s.path) else t.dirs)
  }

  /** A tree and whether the steps that led to it all went through. */
  datatype Ran = Ran(tree: Tree, ok: bool)

  function Apply(t: Tree, s: Step): Ran {
    if Skipped(t, s) then Ran(t, true)
    else if !Writable(t, s) then Ran(t, false)
    else Ran(Put(t, s), true)
  }

  /** The steps in order, up to the first that throws. */
  function RunSteps(t: Tree, steps: seq<Step>): Ran {
    if steps == [] then Ran(t, true)
    else
      var r := RunSteps(t, steps[..|steps| - 1]);
      if r.ok then Apply(r.tree, steps[|steps| - 1]) else r
  }

  predicate Under(targets: seq<Path>, p: Path) {
    exists k :: 0 <= k < |targets| && targets[k] <= p
  }

  /** The tree without the targets and all that lies below them. */
  function Pruned(t: Tree, targets: seq<Path>): Tree {
    Tree(map p | p in t.files && !Under(targets, p) :: t.files[p], set p | p in t.dirs && !Under(targets, p))
  }

  // ----- options and plans -------------------------------------------------------------------

  /** A path as given: from the file-system root, or from the root of the repository. */
  datatype Name = Absolute(path: Path) | Relative(path: Path)

  function Resolve(root: Path, name: Name): Path {
    match name
    case Absolute(p) => p
    case Relative(p) => root + p
  }

  /** What a project's declared stack renders to: the optional files are those of the services it declares. */
  datatype Rendering = Rendering(compose: string, nginx: Option<string>, mongodb: bool, ipfs: bool)

  datatype Options = Options(
    install: bool, reset: bool, force: bool, generate: bool, up: bool, down: bool, volumes: bool, restart: bool,
    build: bool, pull: bool, logs: bool, status: bool, shell: bool, exec: string, target: string,
    deployId: string, dockerComposeId: string, env: string,
    composeFile: Option<Name>, envFile: Option<Name>, nginxConf: Option<Name>, appOverride: Option<Name>,
    stack: Option<Rendering>)

  /** The fixed texts the generator renders; the override depends on the deployment and its environment. */
  datatype Texts = Texts(nginx: string, mongoEntrypoint: string, prometheus: string, grafana: string,
                         envExample: string, ipfsInit: string, appOverride: (string, string) -> string)

  /** Where the repository lies, and the texts of its generator. */
  datatype Setting = Setting(root: Path, texts: Texts)

  const DEFAULT_DEPLOY_ID := "dd-default"

  const NGINX_CONF: Path := ["docker", "nginx", "default.conf"]
  const MONGO_ENTRYPOINT: Path := ["docker", "mongodb", "entrypoint.sh"]
  const PROMETHEUS: Path := ["docker", "prometheus", "prometheus.yml"]
  const GRAFANA: Path := ["docker", "grafana", "provisioning"]
  const GRAFANA_DATASOURCE: Path := ["docker", "grafana", "provisioning", "datasources", "datasource.yml"]
  const APP_OVERRIDE: Path := ["docker", "compose.app.yml"]
  const ENV_EXAMPLE: Path := ["docker", "compose.env.example"]
  const ENV_FILE: Path := ["docker", "compose.env"]

  const GENERATED_ARTIFACTS: seq<Path> :=
    [MONGO_ENTRYPOINT, NGINX_CONF, PROMETHEUS, GRAFANA, APP_OVERRIDE, ENV_EXAMPLE]

  function DeployId(o: Options): string {
    if o.deployId == "" then DEFAULT_DEPLOY_ID else o.deployId
  }

  function Env(o: Options): string {
    if o.env == "" then "development" else o.env
  }

  function Given(s: Setting, name: Option<Name>, fallback: Path): Path {
    Resolve(s.root, if name.Some? then name.value else Relative(fallback))
  }

  predicate Custom(o: Options) {
    o.dockerComposeId != ""
  }

  /** The canonical directory of a custom workflow. */
  function ComposeIdBase(o: Options): Path {
    ["engine-private", "conf", DeployId(o), "docker-compose", o.dockerComposeId]
  }

  function EnvPath(s: Setting, o: Options): Path {
    Given(s, o.envFile, if Custom(o) then ComposeIdBase(o) + ["compose.env"] else ENV_FILE)
  }

  function ComposePath(s: Setting, o: Options): Path {
    Given(s, o.composeFile, if Custom(o) then ComposeIdBase(o) + ["docker-compose.yml"] else ["docker-compose.yml"])
  }

  function OverridePath(s: Setting, o: Options): Path {
    Given(s, o.appOverride, APP_OVERRIDE)
  }

  function OverrideText(s: Setting, o: Options): string {
    s.texts.appOverride(DeployId(o), Env(o))
  }

  function EnvStep(s: Setting, o: Options): Step {
    Step(EnvPath(s, o), s.texts.envExample, true, true)
  }

  /** The writes of the default workflow before the working env-file. */
  function SupportSteps(s: Setting, o: Options): seq<Step> {
    [Step(Given(s, o.nginxConf, NGINX_CONF), s.texts.nginx, true, false),
     Step(s.root + MONGO_ENTRYPOINT, s.texts.mongoEntrypoint, true, false),
     Step(s.root + PROMETHEUS, s.texts.prometheus, true, false),
     Step(s.root + GRAFANA_DATASOURCE, s.texts.grafana, true, false),
     Step(s.root + ENV_EXAMPLE, s.texts.envExample, true, false)]
  }

  function OverrideStep(s: Setting, o: Options): Step {
    Step(OverridePath(s, o), OverrideText(s, o), false, false)
  }

  function DefaultPlan(s: Setting, o: Options): seq<Step> {
    SupportSteps(s, o) + [EnvStep(s, o)] + [OverrideStep(s, o)]
  }

  /** The files of a rendered stack. */
  function StackPlan(s: Setting, o: Options, r: Rendering): seq<Step> {
    var dir := s.root + ComposeIdBase(o);
    [Step(ComposePath(s, o), r.compose, true, false)]
    + (if r.nginx.Some? then [Step(dir + ["nginx.conf"], r.nginx.value, true, false)] else [])
    + (if r.mongodb then [Step(dir + ["mongodb", "entrypoint.sh"], s.texts.mongoEntrypoint, true, false)] else [])
    + (if r.ipfs then [Step(dir + ["ipfs", "configure-ipfs.sh"], s.texts.ipfsInit, true, false)] else [])
  }

  /** A custom workflow needs its env-file, and without a declared stack its compose file too. */
  predicate StackReads(t: Tree, s: Setting, o: Options) {
    Exists(t, EnvPath(s, o)) && (o.stack.None? ==> Exists(t, ComposePath(s, o)))
  }

  function Generated(t: Tree, s: Setting, o: Options): Ran {
    if !Custom(o) then RunSteps(t, DefaultPlan(s, o))
    else if !StackReads(t, s, o) then Ran(t, false)
    else if o.stack.None? then Ran(t, true)
    else RunSteps(t, StackPlan(s, o, o.stack.value))
  }

  /** What a reset of the default workflow removes. */
  function Targets(s: Setting, o: Options): seq<Path> {
    seq(|GENERATED_ARTIFACTS|, k requires 0 <= k < |GENERATED_ARTIFACTS| => s.root + GENERATED_ARTIFACTS[k])
    + if o.force then [Given(s, o.envFile, ENV_FILE)] else []
  }

  function AfterReset(t: Tree, s: Setting, o: Options): Tree {
    if Custom(o) then t else Pruned(t, Targets(s, o))
  }

  // ----- one invocation ----------------------------------------------------------------------

  datatype Action = TearDown | Exec(args: string) | Up(build: bool) | Down(volumes: bool) | Restart(service: string)
    | Build(service: string) | Pull | Logs(service: string) | Status | Shell(service: string)

  /** The composed command: the files it names and what it asks for. */
  datatype Command = Command(projectDir: Option<Path>, envFile: Path, composeFile: Path, overrideFile: Option<Path>,
                             action: Action)

  function BaseCmd(t: Tree, s: Setting, o: Options, action: Action): Command {
    if Custom(o) then Command(Some(s.root + ComposeIdBase(o)), EnvPath(s, o), ComposePath(s, o), None, action)
    else Command(None, EnvPath(s, o), ComposePath(s, o),
                 if Exists(t, OverridePath(s, o)) then Some(OverridePath(s, o)) else None, action)
  }

  /** Bringing the stack up is the explicit flag, or what remains when no action is asked for. */
  predicate IsUp(o: Options) {
    o.up || !(o.exec != "" || o.down || o.restart || o.build || o.pull || o.logs || o.status || o.shell || o.generate)
  }

  function Chosen(o: Options): Option<Action> {
    if o.exec != "" then Some(Exec(o.exec))
    else if IsUp(o) then Some(Up(o.build))
    else if o.down then Some(Down(o.volumes))
    else if o.restart then Some(Restart(o.target))
    else if o.build then Some(Build(o.target))
    else if o.pull then Some(Pull)
    else if o.logs then Some(Logs(o.target))
    else if o.status then Some(Status)
    else if o.shell then Some(Shell(if o.target == "" then "app" else o.target))
    else None
  }

  predicate OnlyInstalls(o: Options) {
    o.install && !o.up && !o.down && !o.generate && o.exec == ""
  }

  predicate OnlyResets(o: Options) {
    o.reset && !o.up && !o.generate
  }

  predicate Generates(o: Options) {
    !OnlyInstalls(o) && !OnlyResets(o) && (IsUp(o) || o.generate)
  }

  predicate Resets(o: Options) {
    !OnlyInstalls(o) && o.reset
  }

  /** The file tree and the commands composed so far. */
  datatype World = World(tree: Tree, log: seq<Command>)

  function WithReset(w: World, s: Setting, o: Options): World {
    if o.reset then World(AfterReset(w.tree, s, o), w.log + [BaseCmd(w.tree, s, o, TearDown)]) else w
  }

  function Act(w: World, s: Setting, o: Options): World {
    if Chosen(o).None? then w else World(w.tree, w.log + [BaseCmd(w.tree, s, o, Chosen(o).value)])
  }

  /** One invocation of the command. */
  function Invoke(w: World, s: Setting, o: Options): World {
    if OnlyInstalls(o) then w
    else
      var w1 := WithReset(w, s, o);
      if OnlyResets(o) then w1
      else
        var g := if IsUp(o) || o.generate then Generated(w1.tree, s, o) else Ran(w1.tree, true);
        var w2 := World(g.tree, w1.log);
        if g.ok then Act(w2, s, o) else w2
  }

  function InvokeAll(w: World, s: Setting, os: seq<Options>): World {
    if os == [] then w else Invoke(InvokeAll(w, s, os[..|os| - 1]), s, os[|os| - 1])
  }

  // ----- what a plan does to one path --------------------------------------------------------

  predicate Overwrites(steps: seq<Step>, p: Path) {
    exists k :: 0 <= k < |steps| && steps[k].path == p && !steps[k].onlyIfMissing
  }

  predicate Mentions(steps: seq<Step>, p: Path) {
    exists k :: 0 <= k < |steps| && steps[k].path == p
  }

  /** The text of the last step that writes a path whatever is there. */
  function LastText(steps: seq<Step>, p: Path): string
    requires Overwrites(steps, p)
  {
    var n := |steps| - 1;
    if steps[n].path == p && !steps[n].onlyIfMissing then steps[n].text else LastText(steps[..n], p)
  }

  /** A file no step overwrites stays as it is, however far the steps get. */
  lemma {:induction false} FileIsKept(t: Tree, steps: seq<Step>, p: Path)
    requires p in t.files && !Overwrites(steps, p)
    ensures p in RunSteps(t, steps).tree.files && RunSteps(t, steps).tree.files[p] == t.files[p]
  {
    if steps != [] {
      var n := |steps| - 1;
      assert forall k :: 0 <= k < n ==> steps[..n][k] == steps[k];
      FileIsKept(t, steps[..n], p);
      assert steps[n].path == p ==> steps[n].onlyIfMissing;
    }
  }

  lemma {:induction false} UnmentionedIsKept(t: Tree, steps: seq<Step>, p: Path)
    requires !Mentions(steps, p)
    ensures At(RunSteps(t, steps).tree, p) == At(t, p)
  {
    if steps != [] {
      var n := |steps| - 1;
      assert forall k :: 0 <= k < n ==> steps[..n][k] == steps[k];
      UnmentionedIsKept(t, steps[..n], p);
      assert steps[n].path != p;
    }
  }

  /** An overwritten path ends with the last text, wherever the steps started. */
  lemma {:induction false} OverwrittenEndsWithLast(t: Tree, steps: seq<Step>, p: Path)
    requires RunSteps(t, steps).ok && Overwrites(steps, p)
    ensures At(RunSteps(t, steps).tree, p) == Some(LastText(steps, p))
  {
    var n := |steps| - 1;
    if !(steps[n].path == p && !steps[n].onlyIfMissing) {
      var k :| 0 <= k < |steps| && steps[k].path == p && !steps[k].onlyIfMissing;
      assert steps[..n][k].path == p;
      OverwrittenEndsWithLast(t, steps[..n], p);
    }
  }

  /** Where two trees agree on the one path that is written only if missing, the same steps leave them agreeing. */
  lemma {:induction false} GuardedAgrees(a: Tree, b: Tree, steps: seq<Step>, p: Path)
    requires RunSteps(a, steps).ok && RunSteps(b, steps).ok
    requires forall k :: 0 <= k < |steps| && steps[k].onlyIfMissing ==> steps[k].path == p
    requires At(a, p) == At(b, p) && (p in a.dirs <==> p in b.dirs)
    ensures At(RunSteps(a, steps).tree, p) == At(RunSteps(b, steps).tree, p)
    ensures p in RunSteps(a, steps).tree.dirs <==> p in RunSteps(b, steps).tree.dirs
  {
    if steps != [] {
      GuardedAgrees(a, b, steps[..|steps| - 1], p);
    }
  }

  // ----- what every invocation keeps ---------------------------------------------------------

  function Plan(s: Setting, o: Options): seq<Step> {
    if !Custom(o) then DefaultPlan(s, o) else if o.stack.Some? then StackPlan(s, o, o.stack.value) else []
  }

  /** An invocation that neither prunes a path nor names it as one of the files it renders. */
  predicate Spares(s: Setting, o: Options, p: Path) {
    && (Resets(o) && !Custom(o) ==> !Under(Targets(s, o), p))
    && (Generates(o) ==> !Overwrites(Plan(s, o), p))
  }

  lemma {:induction false} InvocationKeeps(w: World, s: Setting, o: Options, p: Path)
    requires p in w.tree.files && Spares(s, o, p)
    ensures p in Invoke(w, s, o).tree.files && Invoke(w, s, o).tree.files[p] == w.tree.files[p]
  {
    if Generates(o) {
      var t := WithReset(w, s, o).tree;
      assert p in t.files && t.files[p] == w.tree.files[p];
      FileIsKept(t, Plan(s, o), p);
    }
  }

  /** Over every sequence of invocations that spare a file, it never changes. */
  lemma {:induction false} EveryRunKeeps(w: World, s: Setting, os: seq<Options>, p: Path)
    requires p in w.tree.files && forall k :: 0 <= k < |os| ==> Spares(s, os[k], p)
    ensures p in InvokeAll(w, s, os).tree.files && InvokeAll(w, s, os).tree.files[p] == w.tree.files[p]
  {
    if os != [] {
      var n := |os| - 1;
      EveryRunKeeps(w, s, os[..n], p);
      InvocationKeeps(InvokeAll(w, s, os[..n]), s, os[n], p);
    }
  }

  /** No generated path is moved onto another by an option, and no reset is forced. */
  predicate Ordinary(o: Options) {
    o.nginxConf.None? && o.appOverride.None? && (Custom(o) ==> o.composeFile.None?) && !(o.reset && o.force)
  }

  lemma {:induction false} UnderRoot(root: Path, a: Path, b: Path)
    ensures root + a == root + b ==> a == b
    ensures root + a <= root + b ==> a <= b
  {
    assert (root + a)[|root|..] == a && (root + b)[|root|..] == b;
    if root + a <= root + b {
      assert forall k :: 0 <= k < |a| ==> a[k] == (root + a)[|root| + k] == (root + b)[|root| + k] == b[k];
    }
  }

  lemma {:induction false} EnvFileIsNotPruned(s: Setting, o: Options)
    requires !o.force
    ensures !Under(Targets(s, o), s.root + ENV_FILE)
  {
    forall k | 0 <= k < |GENERATED_ARTIFACTS| ensures !(s.root + GENERATED_ARTIFACTS[k] <= s.root + ENV_FILE) {
      UnderRoot(s.root, GENERATED_ARTIFACTS[k], ENV_FILE);
    }
  }

  lemma {:induction false} EnvFileIsNotOverwritten(s: Setting, o: Options)
    requires Ordinary(o)
    ensures !Overwrites(Plan(s, o), s.root + ENV_FILE)
  {
    var steps := Plan(s, o);
    forall k | 0 <= k < |steps| && !steps[k].onlyIfMissing ensures steps[k].path != s.root + ENV_FILE {
      var p := steps[k].path;
      assert s.root <= p;
      UnderRoot(s.root, p[|s.root|..], ENV_FILE);
      assert p == s.root + p[|s.root|..];
    }
  }

  /** The operator's env-file survives every run without a forced reset and without redirected outputs. */
  lemma {:induction false} CredentialsSurviveEveryRun(w: World, s: Setting, os: seq<Options>)
    requires s.root + ENV_FILE in w.tree.files && forall k :: 0 <= k < |os| ==> Ordinary(os[k])
    ensures At(InvokeAll(w, s, os).tree, s.root + ENV_FILE) == At(w.tree, s.root + ENV_FILE)
  {
    forall k | 0 <= k < |os| ensures Spares(s, os[k], s.root + ENV_FILE) {
      if Resets(os[k]) { EnvFileIsNotPruned(s, os[k]); }
      EnvFileIsNotOverwritten(s, os[k]);
    }
    EveryRunKeeps(w, s, os, s.root + ENV_FILE);
  }

  lemma {:induction false} NothingElseIsWritten(t: Tree, steps: seq<Step>, p: Path, text: string)
    requires p !in t.files && forall k :: 0 <= k < |steps| && steps[k].path == p ==> steps[k].text == text
    ensures At(RunSteps(t, steps).tree, p) in {None, Some(text)}
  {
    if steps != [] {
      assert forall k :: 0 <= k < |steps| - 1 ==> steps[..|steps| - 1][k] == steps[k];
      NothingElseIsWritten(t, steps[..|steps| - 1], p, text);
    }
  }

  /**
   * The other half: a forced reset always takes the env-file it names. What stands there afterwards is what the
   * same invocation generated, never what the operator wrote.
   */
  lemma {:induction false} ForcedResetDropsIt(w: World, s: Setting, o: Options)
    requires Resets(o) && o.force && !Custom(o)
    ensures !Generates(o) ==> EnvPath(s, o) !in Invoke(w, s, o).tree.files
    ensures !Overwrites(Plan(s, o), EnvPath(s, o))
      ==> At(Invoke(w, s, o).tree, EnvPath(s, o)) in {None, Some(s.texts.envExample)}
  {
    var targets := Targets(s, o);
    assert targets[|targets| - 1] == EnvPath(s, o);
    if !Overwrites(Plan(s, o), EnvPath(s, o)) {
      NothingElseIsWritten(WithReset(w, s, o).tree, DefaultPlan(s, o), EnvPath(s, o), s.texts.envExample);
    }
  }

  // ----- what a composed command can rely on -------------------------------------------------

  lemma {:induction false} PrefixRan(t: Tree, steps: seq<Step>, last: Step)
    ensures RunSteps(t, steps + [last])
         == if RunSteps(t, steps).ok then Apply(RunSteps(t, steps).tree, last) else RunSteps(t, steps)
  {
    assert (steps + [last])[..|steps|] == steps;
  }

  /** After a generation of the default workflow the override is in place, and so is a working env-file. */
  lemma {:induction false} GeneratedIsComplete(t: Tree, s: Setting, o: Options)
    requires !Custom(o) && Generated(t, s, o).ok
    ensures At(Generated(t, s, o).tree, OverridePath(s, o)) == Some(OverrideText(s, o))
    ensures Exists(Generated(t, s, o).tree, EnvPath(s, o))
  {
    PrefixRan(t, SupportSteps(s, o), EnvStep(s, o));
    PrefixRan(t, SupportSteps(s, o) + [EnvStep(s, o)], OverrideStep(s, o));
  }

  /**
   * Bringing the default stack up either throws before anything is composed, or composes a command that names an
   * override which exists and starts the deployment asked for.
   */
  lemma {:induction false} UpHasItsOverride(w: World, s: Setting, o: Options)
    requires !Custom(o) && IsUp(o) && o.exec == "" && !OnlyInstalls(o) && !OnlyResets(o)
    ensures Invoke(w, s, o).log == WithReset(w, s, o).log
         || Invoke(w, s, o).log == WithReset(w, s, o).log
              + [Command(None, EnvPath(s, o), ComposePath(s, o), Some(OverridePath(s, o)), Up(o.build))]
    ensures Invoke(w, s, o).log != WithReset(w, s, o).log
      ==> At(Invoke(w, s, o).tree, OverridePath(s, o)) == Some(OverrideText(s, o))
          && Exists(Invoke(w, s, o).tree, EnvPath(s, o))
  {
    var t := WithReset(w, s, o).tree;
    if Generated(t, s, o).ok { GeneratedIsComplete(t, s, o); }
  }

  /** A default command that brings containers up without its override. */
  predicate Headless(c: Command) {
    c.action.Up? && c.projectDir.None? && c.overrideFile.None?
  }

  lemma {:induction false} NoHeadlessUp(w: World, s: Setting, os: seq<Options>)
    requires forall c :: c in w.log ==> !Headless(c)
    ensures forall c :: c in InvokeAll(w, s, os).log ==> !Headless(c)
  {
    if os != [] {
      var n := |os| - 1;
      NoHeadlessUp(w, s, os[..n]);
      var v, o := InvokeAll(w, s, os[..n]), os[n];
      if !Custom(o) && IsUp(o) && o.exec == "" && !OnlyInstalls(o) && !OnlyResets(o) { UpHasItsOverride(v, s, o); }
    }
  }

  // ----- resetting before generating ---------------------------------------------------------

  /** `b` is `a` with nothing missing but what lies under the targets. */
  ghost predicate Within(b: Tree, a: Tree, targets: seq<Path>) {
    && b.files.Keys <= a.files.Keys && b.dirs <= a.dirs
    && (forall p :: p in a.files && !Under(targets, p) ==> p in b.files)
    && (forall p :: p in a.dirs && !Under(targets, p) ==> p in b.dirs)
  }

  /** Neither a guarded path nor the directory of a write that makes none lies under the targets. */
  predicate Clear(targets: seq<Path>, st: Step) {
    && (st.onlyIfMissing ==> !Under(targets, st.path))
    && (!st.makesDirs && st.path != [] ==> !Under(targets, st.path[..|st.path| - 1]))
  }

  lemma {:induction false} PrunedTreeRuns(b: Tree, a: Tree, targets: seq<Path>, steps: seq<Step>)
    requires Within(b, a, targets) && RunSteps(a, steps).ok
    requires forall k :: 0 <= k < |steps| ==> Clear(targets, steps[k])
    ensures RunSteps(b, steps).ok && Within(RunSteps(b, steps).tree, RunSteps(a, steps).tree, targets)
  {
    if steps != [] {
      var n := |steps| - 1;
      assert forall k :: 0 <= k < n ==> steps[..n][k] == steps[k];
      PrunedTreeRuns(b, a, targets, steps[..n]);
      PrunedTreeStep(RunSteps(b, steps[..n]).tree, RunSteps(a, steps[..n]).tree, targets, steps[n]);
    }
  }

  lemma {:induction false} PrunedTreeStep(b: Tree, a: Tree, targets: seq<Path>, st: Step)
    requires Within(b, a, targets) && Apply(a, st).ok && Clear(targets, st)
    ensures Apply(b, st).ok && Within(Apply(b, st).tree, Apply(a, st).tree, targets)
  {
    if !Skipped(a, st) && st.makesDirs {
      assert Ancestors(st.path) !! a.files.Keys;
      assert Ancestors(st.path) !! b.files.Keys;
    }
  }

  /** An unforced reset removes nothing a later generation needs to find. */
  lemma {:induction false} DefaultPlanIsClear(s: Setting, o: Options)
    requires !o.force && !Under(Targets(s, o), EnvPath(s, o)) && o.appOverride.None?
    ensures forall k :: 0 <= k < |DefaultPlan(s, o)| ==> Clear(Targets(s, o), DefaultPlan(s, o)[k])
  {
    var docker := s.root + ["docker"];
    assert OverridePath(s, o)[..|OverridePath(s, o)| - 1] == docker;
    assert !Under(Targets(s, o), docker);
  }

  /** If a generation goes through, it goes through after an unforced reset as well. */
  lemma {:induction false} RegenerationSucceeds(t: Tree, s: Setting, o: Options)
    requires !Custom(o) && !o.force && !Under(Targets(s, o), EnvPath(s, o)) && o.appOverride.None?
    requires Generated(t, s, o).ok
    ensures Generated(AfterReset(t, s, o), s, o).ok
  {
    DefaultPlanIsClear(s, o);
    PrunedTreeRuns(AfterReset(t, s, o), t, Targets(s, o), DefaultPlan(s, o));
  }

  /**
   * Generating after an unforced reset differs from generating alone only in files below the pruned paths that the
   * generator does not write: those are gone.
   */
  lemma {:induction false} ResetThenGenerate(t: Tree, s: Setting, o: Options, p: Path)
    requires !Custom(o) && !o.force && !Under(Targets(s, o), EnvPath(s, o))
    requires Generated(t, s, o).ok && Generated(AfterReset(t, s, o), s, o).ok
    ensures At(Generated(AfterReset(t, s, o), s, o).tree, p)
         == if Under(Targets(s, o), p) && !Overwrites(DefaultPlan(s, o), p) then None
            else At(Generated(t, s, o).tree, p)
  {
    var steps, u := DefaultPlan(s, o), AfterReset(t, s, o);
    assert steps[5] == EnvStep(s, o);
    if Overwrites(steps, p) {
      OverwrittenEndsWithLast(t, steps, p);
      OverwrittenEndsWithLast(u, steps, p);
    } else if p == EnvPath(s, o) {
      GuardedAgrees(t, u, steps, p);
    } else {
      assert !Mentions(steps, p);
      UnmentionedIsKept(t, steps, p);
      UnmentionedIsKept(u, steps, p);
    }
  }

  lemma {:induction false} ExtraFileStays(t: Tree, s: Setting, o: Options, p: Path)
    requires !Custom(o) && p in t.files && !Overwrites(DefaultPlan(s, o), p)
    ensures p in Generated(t, s, o).tree.files
  {
    FileIsKept(t, DefaultPlan(s, o), p);
  }

  /** The two agree on every file exactly when nothing else lies below the pruned paths. */
  lemma {:induction false} ResetIsInvisibleExactly(t: Tree, s: Setting, o: Options)
    requires !Custom(o) && !o.force && !Under(Targets(s, o), EnvPath(s, o)) && o.appOverride.None?
    requires Generated(t, s, o).ok
    ensures Generated(AfterReset(t, s, o), s, o).tree.files == Generated(t, s, o).tree.files
       <==> forall p :: p in t.files && Under(Targets(s, o), p) ==> Overwrites(DefaultPlan(s, o), p)
  {
    RegenerationSucceeds(t, s, o);
    var g, h := Generated(t, s, o).tree, Generated(AfterReset(t, s, o), s, o).tree;
    if p :| p in t.files && Under(Targets(s, o), p) && !Overwrites(DefaultPlan(s, o), p) {
      ResetThenGenerate(t, s, o, p);
      ExtraFileStays(t, s, o, p);
      assert p in g.files && p !in h.files;
    } else {
      forall p ensures At(h, p) == At(g, p) {
        ResetThenGenerate(t, s, o, p);
        if Under(Targets(s, o), p) && !Overwrites(DefaultPlan(s, o), p) {
          assert p != EnvPath(s, o);
          assert DefaultPlan(s, o)[5] == EnvStep(s, o);
          UnmentionedIsKept(t, DefaultPlan(s, o), p);
        }
      }
      assert forall p :: p in h.files <==> At(h, p).Some?;
      assert forall p :: p in g.files <==> At(g, p).Some?;
      assert forall p :: p in g.files ==> At(g, p) == Some(g.files[p]);
      assert h.files == g.files;
    }
  }

  // ----- generating again --------------------------------------------------------------------

  /** What a step left behind: running it again would skip it or write where it wrote. */
  ghost predicate Settled(t: Tree, st: Step) {
    || Skipped(t, st)
    || (st.path != [] && st.path in t.files
        && if st.makesDirs then Ancestors(st.path) <= t.dirs else st.path[..|st.path| - 1] in t.dirs)
  }

  lemma {:induction false} StepsSettle(t: Tree, steps: seq<Step>)
    requires Consistent(t) && RunSteps(t, steps).ok
    ensures Consistent(RunSteps(t, steps).tree)
    ensures forall k :: 0 <= k < |steps| ==> Settled(RunSteps(t, steps).tree, steps[k])
  {
    if steps != [] {
      var n := |steps| - 1;
      StepsSettle(t, steps[..n]);
      assert forall k :: 0 <= k < n ==> steps[..n][k] == steps[k];
      StepSettles(RunSteps(t, steps[..n]).tree, steps[n]);
    }
  }

  lemma {:induction false} StepSettles(t: Tree, st: Step)
    requires Consistent(t) && Apply(t, st).ok
    ensures Consistent(Apply(t, st).tree) && Settled(Apply(t, st).tree, st)
    ensures forall other :: Settled(t, other) ==> Settled(Apply(t, st).tree, other)
  {
    assert st.path !in Ancestors(st.path);
  }

  /** Steps that are settled go through and add no path. */
  lemma {:induction false} SettledStepsAddNothing(u: Tree, b: Tree, steps: seq<Step>)
    requires Consistent(b) && u.files.Keys == b.files.Keys && u.dirs == b.dirs
    requires forall k :: 0 <= k < |steps| ==> Settled(b, steps[k])
    ensures RunSteps(u, steps).ok
    ensures RunSteps(u, steps).tree.files.Keys == b.files.Keys && RunSteps(u, steps).tree.dirs == b.dirs
  {
    if steps != [] {
      var n := |steps| - 1;
      assert forall k :: 0 <= k < n ==> steps[..n][k] == steps[k];
      SettledStepsAddNothing(u, b, steps[..n]);
      var v, st := RunSteps(u, steps[..n]).tree, steps[n];
      assert Settled(b, st);
      if !Skipped(v, st) {
        assert Writable(v, st);
        if st.makesDirs { assert v.dirs + Ancestors(st.path) == v.dirs; }
      }
    }
  }

  /** Generating a second time with the same options changes nothing, in either workflow. */
  lemma {:induction false} GenerateIsIdempotent(t: Tree, s: Setting, o: Options)
    requires Consistent(t) && Generated(t, s, o).ok
    ensures Generated(Generated(t, s, o).tree, s, o) == Generated(t, s, o)
  {
    var steps, g := Plan(s, o), Generated(t, s, o).tree;
    assert Generated(t, s, o) == RunSteps(t, steps);
    StepsSettle(t, steps);
    SettledStepsAddNothing(g, g, steps);
    var h := RunSteps(g, steps).tree;
    forall p | p in g.files ensures h.files[p] == g.files[p] {
      if Overwrites(steps, p) {
        OverwrittenEndsWithLast(t, steps, p);
        OverwrittenEndsWithLast(g, steps, p);
      } else {
        FileIsKept(g, steps, p);
      }
    }
    assert h.files == g.files;
    if Custom(o) { StackStillReads(t, s, o); }
  }

  lemma {:induction false} PathsStay(t: Tree, steps: seq<Step>, p: Path)
    requires Exists(t, p)
    ensures Exists(RunSteps(t, steps).tree, p)
  {
    if steps != [] { PathsStay(t, steps[..|steps| - 1], p); }
  }

  lemma {:induction false} StackStillReads(t: Tree, s: Setting, o: Options)
    requires Custom(o) && Generated(t, s, o).ok
    ensures StackReads(Generated(t, s, o).tree, s, o)
  {
    PathsStay(t, Plan(s, o), EnvPath(s, o));
    if o.stack.None? { PathsStay(t, Plan(s, o), ComposePath(s, o)); }
  }

  // ----- the command -------------------------------------------------------------------------

  /** The command over the file tree it works in. */
  class Workflow {
    const setting: Setting
    var files: map<Path, string>
    var dirs: set<Path>
    var log: seq<Command>

    constructor (setting: Setting, files: map<Path, string>, dirs: set<Path>)
      ensures this.setting == setting && State() == World(Tree(files, dirs), [])
    {
      this.setting := setting;
      this.files := files;
      this.dirs := dirs;
      log := [];
    }

    function Disk(): Tree
      reads this
    {
      Tree(files, dirs)
    }

    function State(): World
      reads this
    {
      World(Disk(), log)
    }

    method Write(st: Step) returns (ok: bool)
      modifies this`files, this`dirs
      ensures Ran(Disk(), ok) == Apply(old(Disk()), st)
    {
      if st.onlyIfMissing && (st.path in files || st.path in dirs) { return true; }
      if st.path == [] || st.path in dirs { return false; }
      if st.makesDirs {
        if !(Ancestors(st.path) !! files.Keys) { return false; }
        dirs := dirs + Ancestors(st.path);
      } else if st.path[..|st.path| - 1] !in dirs {
        return false;
      }
      files := files[st.path := st.text];
      return true;
    }

    method WriteAll(steps: seq<Step>) returns (ok: bool)
      modifies this`files, this`dirs
      ensures Ran(Disk(), ok) == RunSteps(old(Disk()), steps)
    {
      ghost var t := Disk();
      ok := true;
      for k := 0 to |steps|
        invariant ok && Disk() == RunSteps(t, steps[..k]).tree && RunSteps(t, steps[..k]).ok
      {
        assert steps[..k + 1][..k] == steps[..k];
        ok := Write(steps[k]);
        if !ok {
          FailureStays(t, steps, k + 1);
          return;
        }
      }
      assert steps[..|steps|] == steps;
    }

    /** Renders the default workflow: the supporting files, a first env-file, the override. */
    method GenerateDefault(o: Options) returns (ok: bool)
      requires !Custom(o)
      modifies this`files, this`dirs
      ensures Ran(Disk(), ok) == Generated(old(Disk()), setting, o)
    {
      ghost var t := Disk();
      PrefixRan(t, SupportSteps(setting, o), EnvStep(setting, o));
      PrefixRan(t, SupportSteps(setting, o) + [EnvStep(setting, o)], OverrideStep(setting, o));
      ok := WriteAll(SupportSteps(setting, o));
      if !ok { return; }
      ok := Write(EnvStep(setting, o));
      if !ok { return; }
      ok := Write(OverrideStep(setting, o));
    }

    method GenerateStack(o: Options) returns (ok: bool)
      requires Custom(o)
      modifies this`files, this`dirs
      ensures Ran(Disk(), ok) == Generated(old(Disk()), setting, o)
    {
      if !StackReads(Disk(), setting, o) { return false; }
      if o.stack.None? { return true; }
      ok := WriteAll(StackPlan(setting, o, o.stack.value));
    }

    method Generate(o: Options) returns (ok: bool)
      modifies this`files, this`dirs
      ensures Ran(Disk(), ok) == Generated(old(Disk()), setting, o)
    {
      if Custom(o) { ok := GenerateStack(o); } else { ok := GenerateDefault(o); }
    }

    /** Removes a file, or a directory with all below it. */
    method Remove(target: Path)
      modifies this`files, this`dirs
      ensures Disk() == Pruned(old(Disk()), [target])
    {
      files := map p | p in files && !(target <= p) :: files[p];
      dirs := set p | p in dirs && !(target <= p);
      assert [target][0] == target;
    }

    method Reset(o: Options)
      modifies this`files, this`dirs, this`log
      ensures State()
           == World(AfterReset(old(Disk()), setting, o), old(log) + [BaseCmd(old(Disk()), setting, o, TearDown)])
    {
      log := log + [BaseCmd(Disk(), setting, o, TearDown)];
      if Custom(o) { return; }
      ghost var t := Disk();
      var targets := Targets(setting, o);
      for k := 0 to |targets|
        invariant Disk() == Pruned(t, targets[..k])
        invariant log == old(log) + [BaseCmd(old(Disk()), setting, o, TearDown)]
      {
        PruneOneMore(t, targets, k);
        Remove(targets[k]);
      }
      assert targets[..|targets|] == targets;
    }

    /** The entry point: install, reset, generate, then the one action chosen. */
    method Callback(o: Options)
      modifies this`files, this`dirs, this`log
      ensures State() == Invoke(old(State()), setting, o)
    {
      if o.install && !o.up && !o.down && !o.generate && o.exec == "" { return; }
      if o.reset {
        Reset(o);
        if !o.up && !o.generate { return; }
      }
      if IsUp(o) || o.generate {
        var ok := Generate(o);
        if !ok { return; }
      }
      var action := Chosen(o);
      if action.Some? { log := log + [BaseCmd(Disk(), setting, o, action.value)]; }
    }
  }

  lemma {:induction false} FailureStays(t: Tree, steps: seq<Step>, k: nat)
    requires k <= |steps| && !RunSteps(t, steps[..k]).ok
    ensures RunSteps(t, steps) == RunSteps(t, steps[..k])
    decreases |steps|
  {
    if k == |steps| {
      assert steps[..k] == steps;
    } else {
      var front := steps[..|steps| - 1];
      assert front[..k] == steps[..k];
      FailureStays(t, front, k);
    }
  }

  lemma {:induction false} PruneOneMore(t: Tree, targets: seq<Path>, k: nat)
    requires k < |targets|
    ensures Pruned(Pruned(t, targets[..k]), [targets[k]]) == Pruned(t, targets[..k + 1])
  {
    forall p ensures Under(targets[..k + 1], p) <==> Under(targets[..k], p) || Under([targets[k]], p) {
      assert forall i :: 0 <= i < k ==> targets[..k][i] == targets[..k + 1][i];
      assert targets[..k + 1][k] == targets[k] == [targets[k]][0];
      if Under(targets[..k], p) {
        var i :| 0 <= i < k && targets[..k][i] <= p;
        assert targets[..k + 1][i] <= p;
      }
    }
  }
}
