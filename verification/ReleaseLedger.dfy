/**
 * The ledger of content releases: durable tasks, the execution lease, the lifecycle of a build and
 * the promotion of a release. One function per operation, over a process that may throw or die
 * between any two writes.
 */
module ReleaseLedger {
  import opened Wrappers

  /** How long an execution or a claimed task is held by a process that stopped. */
  const LEASE_MS: int := 7_200_000

  /** A content digest is never empty: a manifest names the digest of its own file list. */
  type Digest = d: string | d != "" witness "sha256"

  // ----- tasks -------------------------------------------------------------------------------

  datatype Kind = Stage | Ingest
  datatype TaskId = TaskId(kind: Kind, key: string)

  const ARTIFACT := TaskId(Stage, "artifact")

  datatype TaskStatus = Pending | Running | Retry | Completed | Blocked | TaskFailed
  datatype Task = Task(status: TaskStatus, attempts: nat, generation: nat, expiresAt: int)

  type Tasks = map<TaskId, Task>

  const NEW_TASK := Task(Pending, 0, 0, 0)

  predicate IsCompleted(tasks: Tasks, t: TaskId) {
    t in tasks && tasks[t].status == Completed
  }

  /** `ensureTasks`: a task that exists keeps its state. */
  function Ensured(tasks: Tasks, t: TaskId): Tasks {
    if t in tasks then tasks else tasks[t := NEW_TASK]
  }

  predicate Claimable(task: Task, now: int) {
    task.status == Pending || task.status == Retry || (task.status == Running && task.expiresAt < now)
  }

  function Claimed(task: Task, now: int): Task {
    Task(Running, task.attempts + 1, task.generation + 1, now + LEASE_MS)
  }

  /** The end of a failed attempt. A step makes one attempt, so a transient failure blocks. */
  function Ended(task: Task, transient: bool): Task {
    task.(status := if transient then Blocked else TaskFailed)
  }

  /** `resumeTasks`: blocked, failed and waiting tasks are claimable again; completed ones stay. */
  function Resumed(tasks: Tasks): (r: Tasks)
    ensures r.Keys == tasks.Keys
    ensures forall t :: IsCompleted(r, t) <==> IsCompleted(tasks, t)
  {
    map t | t in tasks ::
      if tasks[t].status in {Blocked, TaskFailed, Retry} then tasks[t].(status := Pending, attempts := 0) else tasks[t]
  }

  // ----- the ledger --------------------------------------------------------------------------

  datatype From = FromSource | FromBackups | FromWorkspace
  datatype Source = Source(from: From, sourceRevision: string)

  datatype Status = Building | Candidate | Validated | Failed | Active | Retired

  datatype AuditEntry = AuditEntry(author: string, action: string, discarded: string, promoted: string)

  /** `fingerprint`: the digest per content API when the release was validated. `failure`: the stage that stopped it. */
  datatype Release = Release(
    status: Status, source: Source, digest: Digest, generation: nat, tasks: Tasks, failure: string,
    fingerprint: Option<map<string, string>>, audit: seq<AuditEntry>)

  /** The database of a release: its runtime artifact, its staged import files, what its content APIs hold now. */
  datatype Database = Database(artifact: Option<Digest>, staged: Option<Digest>, content: map<string, string>)

  const EMPTY_DB := Database(None, None, map[])

  /** The one execution, by the unique index on it. */
  datatype Lease = Lease(id: string, holder: string, heartbeatAt: int)

  /** What happened, oldest first: a step body ran, reading a content digest or none; a step was recorded as done. */
  datatype Event =
    | Ran(id: string, generation: nat, task: TaskId, input: Option<Digest>)
    | Done(id: string, generation: nat, task: TaskId)

  datatype Ledger = Ledger(
    releases: map<string, Release>, databases: map<string, Database>, lease: Option<Lease>, log: seq<Event>)

  function DatabaseOf(l: Ledger, id: string): Database {
    if id in l.databases then l.databases[id] else EMPTY_DB
  }

  function Put(l: Ledger, id: string, r: Release): Ledger {
    l.(releases := l.releases[id := r])
  }

  function PutDatabase(l: Ledger, id: string, db: Database): Ledger {
    l.(databases := l.databases[id := db])
  }

  predicate Finished(status: Status) {
    status in {Validated, Active, Retired}
  }

  predicate Executing(status: Status) {
    status in {Building, Candidate}
  }

  function Freed(l: Ledger, id: string): Ledger {
    if l.lease.Some? && l.lease.value.id == id then l.(lease := None) else l
  }

  /** `failContentRelease`: only an executing release fails, and the execution is free again. */
  function FailRelease(l: Ledger, id: string, stage: string): Ledger {
    if id in l.releases && Executing(l.releases[id].status) then
      Freed(Put(l, id, l.releases[id].(status := Failed, failure := stage)), id)
    else l
  }

  // ----- opening a release -------------------------------------------------------------------

  predicate LeaseLive(lease: Lease, now: int) {
    now - lease.heartbeatAt < LEASE_MS
  }

  /** A source revision and a content digest never change under one id. */
  predicate InputDefect(r: Release, source: Source, digest: Digest) {
    r.source != source || r.digest != digest
  }

  datatype Opening = Skipped | Refused | Lost | Opened

  /** What a build asks for. `diesOpening`: the process stops after the candidate database is dropped. */
  datatype Request = Request(
    holder: string, now: int, source: Source, digest: Digest, reset: bool, diesOpening: bool)

  function Acquired(l: Ledger, id: string, q: Request): Ledger {
    var r :=
      if id !in l.releases then
        Release(Building, q.source, q.digest, 1, map[], "", None, [])
      else if q.reset then
        var before := l.releases[id];
        before.(status := Building, failure := "", tasks := map[], generation := before.generation + 1,
             audit := before.audit + [AuditEntry(q.holder, "reset", id, "")])
      else l.releases[id].(status := Building, failure := "");
    Put(l, id, r).(lease := Some(Lease(id, q.holder, q.now)))
  }

  /** The refusals decided before anything is written. */
  function Entry(l: Ledger, id: string, q: Request): Opening {
    if id !in l.releases then Opened
    else if InputDefect(l.releases[id], q.source, q.digest) then Refused
    else if Finished(l.releases[id].status) then Skipped
    else if l.lease.Some? && l.lease.value.id == id && LeaseLive(l.lease.value, q.now) then Refused
    else Opened
  }

  /** The lease: another release that executes refuses this one, unless its lease expired: then it fails. */
  function Acquire(l: Ledger, id: string, q: Request): (Ledger, Opening) {
    if l.lease.None? || l.lease.value.id == id then (Acquired(l, id, q), Opened)
    else if LeaseLive(l.lease.value, q.now) then (l, Refused)
    else
      var l' := FailRelease(l, l.lease.value.id, "lease");
      if l'.lease.Some? then (l', Refused) else (Acquired(l', id, q), Opened)
  }

  /** `beginContentRelease`. */
  function Begin(l: Ledger, id: string, q: Request): (Ledger, Opening) {
    var entry := Entry(l, id, q);
    if entry != Opened then (l, entry)
    else
      var l' := if id !in l.releases || q.reset then PutDatabase(l, id, EMPTY_DB) else l;
      if q.diesOpening then (l', Lost) else Acquire(l', id, q)
  }

  // ----- one durable step --------------------------------------------------------------------

  datatype Flow = Go | Throw | Die

  /** Where the process is when a step ends. */
  datatype Fate = Completes | Throws(transient: bool) | DiesUnclaimed | DiesClaimed | DiesRan

  /** The body of a step: how it ends, the database it leaves and the content it reads. */
  datatype Body = Body(fate: Fate, db: Database, input: Option<Digest>)

  datatype StepOut = StepOut(ledger: Ledger, flow: Flow, skipped: bool)

  function WithTask(l: Ledger, id: string, t: TaskId, task: Task): Ledger
    requires id in l.releases
  {
    Put(l, id, l.releases[id].(tasks := l.releases[id].tasks[t := task]))
  }

  function Logged(l: Ledger, e: Event): Ledger {
    l.(log := l.log + [e])
  }

  /** The body ran: its database is as it left it, and the history says so. */
  function AfterBody(l: Ledger, id: string, t: TaskId, body: Body): Ledger
    requires id in l.releases
  {
    Logged(PutDatabase(l, id, body.db), Ran(id, l.releases[id].generation, t, body.input))
  }

  /** `releaseStep`: a completed step is skipped; a claimed one runs its body and records how it ended. */
  function Step(l: Ledger, id: string, now: int, t: TaskId, body: Body): StepOut
    requires id in l.releases
  {
    var tasks := Ensured(l.releases[id].tasks, t);
    var l0 := Put(l, id, l.releases[id].(tasks := tasks));
    if tasks[t].status == Completed then StepOut(l0, Go, true)
    else if body.fate == DiesUnclaimed then StepOut(l0, Die, false)
    else if !Claimable(tasks[t], now) then StepOut(l0, Throw, false)
    else
      var claim := Claimed(tasks[t], now);
      var l1 := WithTask(l0, id, t, claim);
      if body.fate == DiesClaimed then StepOut(l1, Die, false)
      else
        var l2 := AfterBody(l1, id, t, body);
        if body.fate == DiesRan then StepOut(l2, Die, false)
        else if body.fate.Throws? then StepOut(WithTask(l2, id, t, Ended(claim, body.fate.transient)), Throw, false)
        else
          var l3 := WithTask(l2, id, t, claim.(status := Completed));
          StepOut(Logged(l3, Done(id, l.releases[id].generation, t)), Go, false)
  }

  // ----- the import of an artifact -----------------------------------------------------------

  /** `importArtifactContent`: each import is one step, in order, and the first that stops ends it. */
  function IngestAll(l: Ledger, id: string, now: int, keys: seq<string>, fates: map<string, Fate>,
      input: Option<Digest>): (Ledger, Flow)
    requires id in l.releases
    decreases |keys|
  {
    if keys == [] then (l, Go)
    else
      var out := Step(l, id, now, TaskId(Ingest, keys[0]), IngestBody(l, id, keys[0], fates, input));
      if out.flow != Go then (out.ledger, out.flow)
      else IngestAll(out.ledger, id, now, keys[1..], fates, input)
  }

  function IngestBody(l: Ledger, id: string, key: string, fates: map<string, Fate>, input: Option<Digest>): Body {
    Body(if key in fates then fates[key] else Completes, DatabaseOf(l, id), input)
  }

  // ----- the build plans ---------------------------------------------------------------------

  /** How a call that may throw or stop the process ends. */
  datatype Call = Returns | CallThrows(transient: bool) | CallDies

  /**
   * What happens to an attempt. `contract`: the build of the source by its own commands; `built`: the
   * digest and revision it yields; `stored`: how far the artifact gets into the database (its files
   * cleared, written, the import files cleared, written) and how that ends; `claim`: a process that
   * stops around the claim of the artifact step.
   */
  datatype Script = Script(
    claim: Fate,
    contract: Call, built: (Digest, string), storeProgress: nat, store: Call,
    keys: seq<string>, fates: map<string, Fate>,
    content: map<string, string>,
    publication: Call, published: bool,
    validation: Call, valid: bool,
    fingerprint: Call,
    cleanup: Call)

  /** The writes of `storeReleaseArtifact` in order, cut after `progress` of them. */
  function Stored(db: Database, d: Digest, progress: nat): Database {
    if progress == 0 then db
    else if progress == 1 then db.(artifact := None)
    else if progress == 2 then db.(artifact := Some(d))
    else if progress == 3 then db.(artifact := Some(d), staged := None)
    else db.(artifact := Some(d), staged := Some(d))
  }

  function FateOf(c: Call): Fate {
    match c
    case Returns => Completes
    case CallThrows(transient) => Throws(transient)
    case CallDies => DiesRan
  }

  /** The body of the artifact step and the stage it names when it stops. */
  function ArtifactBody(db: Database, q: Request, s: Script): (Body, string) {
    if s.claim == DiesUnclaimed || s.claim == DiesClaimed then (Body(s.claim, db, None), "artifact")
    else if q.source.from == FromSource && s.contract != Returns then (Body(FateOf(s.contract), db, None), "contract")
    else if q.source.from == FromSource && s.built != (q.digest, q.source.sourceRevision) then
      (Body(Throws(false), db, None), "verify")
    else
      var d := RootDigest(q, s);
      if s.store == Returns then (Body(Completes, Stored(db, d, 4), Some(d)), "artifact")
      else (Body(FateOf(s.store), Stored(db, d, s.storeProgress), Some(d)), "artifact")
  }

  /** The digest of the content root an artifact step stores: what was built, or what is on disk. */
  function RootDigest(q: Request, s: Script): Digest {
    if q.source.from == FromSource then s.built.0 else q.digest
  }

  /** The steps an attempt of a plan runs. */
  function PlanKeys(q: Request, s: Script): seq<string> {
    if q.source.from == FromWorkspace then ["workspace"] else s.keys
  }

  /**
   * The content the import of a plan reads: the root this attempt built, the staged files of the release
   * when it resumes a source build, the artifact on disk, or the workspace, which is no artifact.
   */
  function PlanReads(q: Request, s: Script, skipped: bool, db: Database): Option<Digest> {
    match q.source.from
    case FromSource => if skipped then db.staged else Some(s.built.0)
    case FromBackups => Some(q.digest)
    case FromWorkspace => None
  }

  predicate Materializes(db: Database, digest: Digest) {
    db.artifact == Some(digest) && db.staged == Some(digest)
  }

  datatype BuildOut = BuildOut(ledger: Ledger, flow: Flow, stage: string)

  /** The `build` of the three plans: the artifact once, then the import from it. */
  function RunPlan(l: Ledger, id: string, q: Request, s: Script): BuildOut
    requires id in l.releases
  {
    var (body, stage) := ArtifactBody(DatabaseOf(l, id), q, s);
    var out := Step(l, id, q.now, ARTIFACT, body);
    if out.flow != Go then BuildOut(out.ledger, out.flow, if out.ledger.log == l.log then "artifact" else stage)
    else if q.source.from == FromSource && out.skipped && !Materializes(DatabaseOf(out.ledger, id), q.digest) then
      BuildOut(out.ledger, Throw, "artifact")
    else
      var (l', flow) := IngestAll(out.ledger, id, q.now, PlanKeys(q, s), s.fates,
        PlanReads(q, s, out.skipped, DatabaseOf(out.ledger, id)));
      BuildOut(l', flow, "ingest")
  }

  /** `advanceContentRelease`. */
  function Advance(l: Ledger, id: string, to: Status, fingerprint: Option<map<string, string>>): Option<Ledger>
    requires id in l.releases
  {
    var r := l.releases[id];
    if to == Candidate && r.status == Building then Some(Put(l, id, r.(status := Candidate)))
    else if to == Validated && r.status == Candidate then
      Some(Freed(Put(l, id, r.(status := Validated, fingerprint := fingerprint)), id))
    else None
  }

  function CallFlow(c: Call): Flow {
    match c
    case Returns => Go
    case CallThrows(_) => Throw
    case CallDies => Die
  }

  /** From the import to the end of the build. */
  function Conclude(l: Ledger, id: string, s: Script): BuildOut
    requires id in l.releases
  {
    var l0 := PutDatabase(l, id, DatabaseOf(l, id).(content := s.content));
    if s.publication != Returns then BuildOut(l0, CallFlow(s.publication), "publish")
    else if !s.published then BuildOut(l0, Throw, "publish")
    else
      match Advance(l0, id, Candidate, None)
      case None => BuildOut(l0, Throw, "publish")
      case Some(l1) =>
        if s.validation != Returns then BuildOut(l1, CallFlow(s.validation), "validate")
        else if !s.valid then BuildOut(l1, Throw, "validate")
        else if s.fingerprint != Returns then BuildOut(l1, CallFlow(s.fingerprint), "validate")
        else
          match Advance(l1, id, Validated, Some(s.content))
          case None => BuildOut(l1, Throw, "validate")
          case Some(l2) =>
            if s.cleanup != Returns then BuildOut(l2, CallFlow(s.cleanup), "validate")
            else BuildOut(PutDatabase(l2, id, DatabaseOf(l2, id).(staged := None)), Go, "validate")
  }

  function ResumeTasks(l: Ledger, id: string): Ledger
    requires id in l.releases
  {
    Put(l, id, l.releases[id].(tasks := Resumed(l.releases[id].tasks)))
  }

  /** `buildRelease` once the release is open, with its `catch`: what throws fails the release at its stage. */
  function Execute(l: Ledger, id: string, q: Request, s: Script): (Ledger, Flow)
    requires id in l.releases
  {
    var l0 := ResumeTasks(l, id);
    var plan := RunPlan(l0, id, q, s);
    PlanKeepsRelease(l0, id, q, s);
    var out := if plan.flow != Go then plan else Conclude(plan.ledger, id, s);
    if out.flow == Throw then (FailRelease(out.ledger, id, out.stage), Throw) else (out.ledger, out.flow)
  }

  /** `buildRelease`: `Go` when the command goes on, with a built release or one that was kept as it is. */
  function Build(l: Ledger, id: string, q: Request, s: Script): (Ledger, Flow) {
    var (l0, opening) := Begin(l, id, q);
    match opening
    case Skipped => (l0, Go)
    case Refused => (l0, Throw)
    case Lost => (l0, Die)
    case Opened =>
      BeginOpens(l, id, q);
      Execute(l0, id, q, s)
  }

  lemma {:induction false} BeginOpens(l: Ledger, id: string, q: Request)
    requires Begin(l, id, q).1 == Opened
    ensures id in Begin(l, id, q).0.releases
  {
  }

  // ----- the release stays the one that was opened -------------------------------------------

  /** The two ledgers differ in no release but for the tasks of one, and in no lease. */
  ghost predicate OnlyTasks(l: Ledger, l': Ledger, id: string) {
    && id in l.releases && id in l'.releases
    && l'.releases[id] == l.releases[id].(tasks := l'.releases[id].tasks)
    && l'.releases == l.releases[id := l'.releases[id]]
    && l'.lease == l.lease
  }

  lemma {:induction false} OnlyTasksTwice(a: Ledger, b: Ledger, c: Ledger, id: string)
    requires OnlyTasks(a, b, id) && OnlyTasks(b, c, id)
    ensures OnlyTasks(a, c, id)
  {
  }

  lemma {:induction false} StepKeepsRelease(l: Ledger, id: string, now: int, t: TaskId, body: Body)
    requires id in l.releases
    ensures OnlyTasks(l, Step(l, id, now, t, body).ledger, id)
  {
    var out := Step(l, id, now, t, body).ledger;
    assert out.releases == l.releases[id := out.releases[id]];
  }

  /** A step leaves the databases alone or stores the one its body left. */
  lemma {:induction false} StepDatabases(l: Ledger, id: string, now: int, t: TaskId, body: Body)
    requires id in l.releases
    ensures Step(l, id, now, t, body).ledger.databases in {l.databases, l.databases[id := body.db]}
  {
  }

  lemma {:induction false} IngestKeepsRelease(l: Ledger, id: string, now: int, keys: seq<string>,
      fates: map<string, Fate>, input: Option<Digest>)
    requires id in l.releases
    ensures OnlyTasks(l, IngestAll(l, id, now, keys, fates, input).0, id)
    ensures forall o :: DatabaseOf(IngestAll(l, id, now, keys, fates, input).0, o) == DatabaseOf(l, o)
    decreases |keys|
  {
    if keys != [] {
      var body := IngestBody(l, id, keys[0], fates, input);
      var out := Step(l, id, now, TaskId(Ingest, keys[0]), body);
      StepKeepsRelease(l, id, now, TaskId(Ingest, keys[0]), body);
      StepDatabases(l, id, now, TaskId(Ingest, keys[0]), body);
      if out.flow == Go {
        IngestKeepsRelease(out.ledger, id, now, keys[1..], fates, input);
        OnlyTasksTwice(l, out.ledger, IngestAll(l, id, now, keys, fates, input).0, id);
      }
    }
  }

  lemma {:induction false} PlanKeepsRelease(l: Ledger, id: string, q: Request, s: Script)
    requires id in l.releases
    ensures OnlyTasks(l, RunPlan(l, id, q, s).ledger, id)
    ensures forall o :: o != id ==> DatabaseOf(RunPlan(l, id, q, s).ledger, o) == DatabaseOf(l, o)
  {
    var (body, stage) := ArtifactBody(DatabaseOf(l, id), q, s);
    StepKeepsRelease(l, id, q.now, ARTIFACT, body);
    StepDatabases(l, id, q.now, ARTIFACT, body);
    var out := Step(l, id, q.now, ARTIFACT, body);
    if out.flow == Go {
      var input := PlanReads(q, s, out.skipped, DatabaseOf(out.ledger, id));
      IngestKeepsRelease(out.ledger, id, q.now, PlanKeys(q, s), s.fates, input);
      OnlyTasksTwice(l, out.ledger, IngestAll(out.ledger, id, q.now, PlanKeys(q, s), s.fates, input).0, id);
    }
  }
}
