/**
 * What the release protocol guarantees over whole runs: staged import files are there for a resume, a
 * resume completes, and no promotion silently drops live changes.
 */
module ReleaseTheorems {
  import opened Wrappers
  import opened ReleaseLedger
  import opened ReleaseRuns

  // ----- staged import files -----------------------------------------------------------------

  ghost predicate StagedAt(l: Ledger, id: string) {
    id in l.releases && !Finished(l.releases[id].status) && IsCompleted(l.releases[id].tasks, ARTIFACT) ==>
      Materializes(DatabaseOf(l, id), l.releases[id].digest)
  }

  /** An unfinished release whose artifact step is complete holds its artifact and its staged import files. */
  ghost predicate Staged(l: Ledger) {
    forall id :: StagedAt(l, id)
  }

  ghost predicate SameBuild(a: Release, b: Release) {
    b.digest == a.digest && b.tasks == a.tasks && (Finished(a.status) ==> Finished(b.status))
  }

  lemma {:induction false} StagedElsewhere(l: Ledger, l': Ledger, id: string)
    requires Staged(l) && StagedAt(l', id)
    requires forall o :: o != id ==> DatabaseOf(l', o) == DatabaseOf(l, o)
    requires forall o :: o != id && o in l'.releases ==> o in l.releases && SameBuild(l.releases[o], l'.releases[o])
    ensures Staged(l')
  {
    forall o ensures StagedAt(l', o) { assert StagedAt(l, o); }
  }

  lemma {:induction false} ArtifactStepStagesHere(l: Ledger, id: string, q: Request, s: Script)
    requires StagedAt(l, id) && id in l.releases && l.releases[id].digest == q.digest
    ensures StagedAt(Step(l, id, q.now, ARTIFACT, ArtifactBody(DatabaseOf(l, id), q, s).0).ledger, id)
  {
    var body := ArtifactBody(DatabaseOf(l, id), q, s).0;
    StepKeepsRelease(l, id, q.now, ARTIFACT, body);
    StepCompletesExactly(l, id, q.now, ARTIFACT, body);
    ArtifactBodyStores(DatabaseOf(l, id), q, s);
  }

  /** A step ends completed when it was, with its database as it was, or when its body completed, with the body's. */
  lemma {:induction false} StepCompletesExactly(l: Ledger, id: string, now: int, t: TaskId, body: Body)
    requires id in l.releases
    ensures var l' := Step(l, id, now, t, body).ledger;
      id in l'.releases && IsCompleted(l'.releases[id].tasks, t) ==>
        if IsCompleted(l.releases[id].tasks, t) then DatabaseOf(l', id) == DatabaseOf(l, id)
        else body.fate == Completes && DatabaseOf(l', id) == body.db
  {
  }

  lemma {:induction false} ArtifactBodyStores(db: Database, q: Request, s: Script)
    ensures var body := ArtifactBody(db, q, s).0; body.fate == Completes ==> Materializes(body.db, q.digest)
  {
  }

  lemma {:induction false} StepKeepsOthers(l: Ledger, id: string, now: int, t: TaskId, body: Body)
    requires id in l.releases
    ensures var l' := Step(l, id, now, t, body).ledger;
      && (forall o :: o != id ==> DatabaseOf(l', o) == DatabaseOf(l, o))
      && (forall o :: o != id && o in l'.releases ==> o in l.releases && SameBuild(l.releases[o], l'.releases[o]))
  {
    StepKeepsRelease(l, id, now, t, body);
    StepDatabases(l, id, now, t, body);
  }

  lemma {:induction false} ArtifactStepStages(l: Ledger, id: string, q: Request, s: Script)
    requires Staged(l) && id in l.releases && l.releases[id].digest == q.digest
    ensures Staged(Step(l, id, q.now, ARTIFACT, ArtifactBody(DatabaseOf(l, id), q, s).0).ledger)
  {
    var (body, stage) := ArtifactBody(DatabaseOf(l, id), q, s);
    var l' := Step(l, id, q.now, ARTIFACT, body).ledger;
    ArtifactStepStagesHere(l, id, q, s);
    StepKeepsOthers(l, id, q.now, ARTIFACT, body);
    StagedElsewhere(l, l', id);
  }

  lemma {:induction false} IngestStepKeepsStaged(l: Ledger, id: string, now: int, key: string, body: Body)
    requires Staged(l) && id in l.releases && body.db == DatabaseOf(l, id)
    ensures Staged(Step(l, id, now, TaskId(Ingest, key), body).ledger)
  {
    IngestStepKeepsStagedHere(l, id, now, key, body);
    StepKeepsOthers(l, id, now, TaskId(Ingest, key), body);
    StagedElsewhere(l, Step(l, id, now, TaskId(Ingest, key), body).ledger, id);
  }

  lemma {:induction false} IngestStepKeepsStagedHere(l: Ledger, id: string, now: int, key: string, body: Body)
    requires StagedAt(l, id) && id in l.releases && body.db == DatabaseOf(l, id)
    ensures StagedAt(Step(l, id, now, TaskId(Ingest, key), body).ledger, id)
  {
  }

  lemma {:induction false} IngestKeepsStaged(l: Ledger, id: string, now: int, keys: seq<string>,
      fates: map<string, Fate>, input: Option<Digest>)
    requires Staged(l) && id in l.releases
    ensures Staged(IngestAll(l, id, now, keys, fates, input).0)
    decreases |keys|
  {
    if keys != [] {
      var body := IngestBody(l, id, keys[0], fates, input);
      IngestStepKeepsStaged(l, id, now, keys[0], body);
      StepKeepsRelease(l, id, now, TaskId(Ingest, keys[0]), body);
      var out := Step(l, id, now, TaskId(Ingest, keys[0]), body);
      if out.flow == Go { IngestKeepsStaged(out.ledger, id, now, keys[1..], fates, input); }
    }
  }

  lemma {:induction false} ConcludeKeepsArtifact(l: Ledger, id: string, s: Script)
    requires id in l.releases && l.releases[id].status == Building
    ensures var l' := Conclude(l, id, s).ledger;
      && (forall o :: o != id ==> DatabaseOf(l', o) == DatabaseOf(l, o))
      && DatabaseOf(l', id).artifact == DatabaseOf(l, id).artifact
      && (!Passes(s) ==> DatabaseOf(l', id).staged == DatabaseOf(l, id).staged)
  {
  }

  lemma {:induction false} ConcludeKeepsStaged(l: Ledger, id: string, s: Script)
    requires Staged(l) && id in l.releases && l.releases[id].status == Building
    ensures Staged(Conclude(l, id, s).ledger)
  {
    ConcludeOutcome(l, id, s);
    ConcludeFrame(l, id, s);
    ConcludeKeepsArtifact(l, id, s);
    var l' := Conclude(l, id, s).ledger;
    assert StagedAt(l, id);
    StagedElsewhere(l, l', id);
  }

  lemma {:induction false} FailKeepsStaged(l: Ledger, id: string, stage: string)
    requires Staged(l)
    ensures Staged(FailRelease(l, id, stage))
  {
    assert StagedAt(l, id);
    StagedElsewhere(l, FailRelease(l, id, stage), id);
  }

  lemma {:induction false} ExecuteKeepsStaged(l: Ledger, id: string, q: Request, s: Script)
    requires Inv(l) && Staged(l) && id in l.releases && l.releases[id].status == Building && q.digest
        == l.releases[id].digest
    ensures Staged(Execute(l, id, q, s).0)
  {
    var l0 := ResumeTasks(l, id);
    assert StagedAt(l, id);
    StagedElsewhere(l, l0, id);
    ArtifactStepStages(l0, id, q, s);
    var (body, stage) := ArtifactBody(DatabaseOf(l0, id), q, s);
    var out := Step(l0, id, q.now, ARTIFACT, body);
    StepKeepsRelease(l0, id, q.now, ARTIFACT, body);
    if out.flow == Go {
      var input := PlanReads(q, s, out.skipped, DatabaseOf(out.ledger, id));
      IngestKeepsStaged(out.ledger, id, q.now, PlanKeys(q, s), s.fates, input);
    }
    PlanKeepsRelease(l0, id, q, s);
    var plan := RunPlan(l0, id, q, s);
    if plan.flow == Go {
      ConcludeKeepsStaged(plan.ledger, id, s);
      FailKeepsStaged(Conclude(plan.ledger, id, s).ledger, id, Conclude(plan.ledger, id, s).stage);
    } else {
      FailKeepsStaged(plan.ledger, id, plan.stage);
    }
  }

  lemma {:induction false} AcquiredKeepsStaged(l: Ledger, l0: Ledger, id: string, q: Request)
    requires Staged(l) && l0.releases == l.releases
    requires forall o :: o != id ==> DatabaseOf(l0, o) == DatabaseOf(l, o)
    requires id in l.releases ==> !Finished(l.releases[id].status)
    requires id !in l.releases || q.reset || DatabaseOf(l0, id) == DatabaseOf(l, id)
    ensures Staged(Acquired(l0, id, q))
  {
    assert StagedAt(l, id);
    StagedElsewhere(l, Acquired(l0, id, q), id);
  }

  lemma {:induction false} BeginKeepsStaged(l: Ledger, id: string, q: Request)
    requires Staged(l) && (Begin(l, id, q).1 == Opened || !q.reset || id !in l.releases)
    ensures Staged(Begin(l, id, q).0)
  {
    if Entry(l, id, q) == Opened {
      var l0 := if id !in l.releases || q.reset then PutDatabase(l, id, EMPTY_DB) else l;
      if l0.lease.None? || l0.lease.value.id == id {
        AcquiredKeepsStaged(l, l0, id, q);
      } else {
        var other := l0.lease.value.id;
        FailKeepsStaged(l, other, "lease");
        AcquiredKeepsStaged(FailRelease(l, other, "lease"), FailRelease(l0, other, "lease"), id, q);
      }
      if Begin(l, id, q).1 != Opened { UnopenedKeepsStaged(l, id, q); }
    }
  }

  lemma {:induction false} UnopenedKeepsStaged(l: Ledger, id: string, q: Request)
    requires Staged(l) && (id !in l.releases || !q.reset) && Begin(l, id, q).1 != Opened
    ensures Staged(Begin(l, id, q).0)
  {
    var l' := Begin(l, id, q).0;
    forall o ensures StagedAt(l', o) { assert StagedAt(l, o); }
  }

  /** An unrefused release opens unless the process stops, or another release executes under a lease that runs. */
  predicate Opens(l: Ledger, id: string, q: Request) {
    !q.diesOpening && (l.lease.None? || l.lease.value.id == id || !LeaseLive(l.lease.value, q.now))
  }

  /**
   * The one way to lose staged files: a `--reset` drops the candidate database before it takes the
   * execution. When it is not refused at entry and the release then does not open - another release executes, or
   * the process stops - its completed artifact step stays completed over an empty database.
   */
  lemma {:induction false} ResetKeepsStagedExactly(l: Ledger, id: string, q: Request)
    requires Inv(l) && Staged(l) && id in l.releases && q.reset
    ensures Staged(Begin(l, id, q).0) <==>
            Entry(l, id, q) != Opened || Opens(l, id, q) || !IsCompleted(l.releases[id].tasks, ARTIFACT)
  {
    var l' := Begin(l, id, q).0;
    if Entry(l, id, q) == Opened {
      OpensExactly(l, id, q);
      if Opens(l, id, q) {
        BeginKeepsStaged(l, id, q);
      } else if IsCompleted(l.releases[id].tasks, ARTIFACT) {
        assert l'.releases[id] == l.releases[id] && DatabaseOf(l', id) == EMPTY_DB;
        assert !StagedAt(l', id);
      } else {
        forall o ensures StagedAt(l', o) { assert StagedAt(l, o); }
      }
    }
  }

  lemma {:induction false} OpensExactly(l: Ledger, id: string, q: Request)
    requires Inv(l)
    ensures Begin(l, id, q).1 == Opened <==> Entry(l, id, q) == Opened && Opens(l, id, q)
  {
  }

  /** After such a loss no build from source goes on: only another reset helps. */
  lemma {:induction false} LostStagingBlocksSource(l: Ledger, id: string, q: Request, s: Script)
    requires id in l.releases && !Finished(l.releases[id].status) && IsCompleted(l.releases[id].tasks, ARTIFACT)
    requires DatabaseOf(l, id) == EMPTY_DB && q.source.from == FromSource && !q.reset
    ensures Build(l, id, q, s).1 != Go
    ensures id in Build(l, id, q, s).0.releases && IsCompleted(Build(l, id, q, s).0.releases[id].tasks, ARTIFACT)
    ensures DatabaseOf(Build(l, id, q, s).0, id) == EMPTY_DB
  {
    var l0 := Begin(l, id, q).0;
    if Begin(l, id, q).1 == Opened {
      BeginOutcome(l, id, q);
      OpenKeepsTasks(l, id, q);
      var l1 := ResumeTasks(l0, id);
      assert IsCompleted(l1.releases[id].tasks, ARTIFACT) && DatabaseOf(l1, id) == EMPTY_DB;
      PlanKeepsRelease(l1, id, q, s);
    } else {
      OpenKeepsTasks(l, id, q);
    }
  }

  lemma {:induction false} OpenKeepsTasks(l: Ledger, id: string, q: Request)
    requires id in l.releases && !q.reset
    ensures var l' := Begin(l, id, q).0;
      id in l'.releases && l'.releases[id].tasks == l.releases[id].tasks && DatabaseOf(l', id) == DatabaseOf(l, id)
  {
  }

  // ----- over runs ---------------------------------------------------------------------------

  lemma {:induction false} PromoteKeepsStaged(l: Ledger, id: string, p: Promotion)
    requires Inv(l) && Staged(l)
    ensures Staged(Promote(l, id, p).0)
  {
    var l' := Promote(l, id, p).0;
    PromoteKeepsWork(l, id, p);
    PromoteKeepsContent(l, id, p);
    forall o ensures StagedAt(l', o) { assert StagedAt(l, o); }
  }

  ghost predicate SameContent(l: Ledger, l': Ledger) {
    && l'.databases == l.databases
    && forall o :: o in l.releases && o in l'.releases ==> l'.releases[o].digest == l.releases[o].digest
  }

  lemma {:induction false} SwitchKeepsContent(l: Ledger, active: Option<string>, id: string, p: Promotion)
    ensures SameContent(l, Switch(l, active, id, p).0)
  {
    assert SameContent(l, RetireActive(l, active));
  }

  lemma {:induction false} AuditedKeepsContent(l: Ledger, id: string, e: AuditEntry)
    ensures SameContent(l, Audited(l, id, e)) && Audited(l, id, e).releases.Keys == l.releases.Keys
  {
  }

  lemma {:induction false} PromoteKeepsContent(l: Ledger, id: string, p: Promotion)
    ensures SameContent(l, Promote(l, id, p).0)
  {
    var active := ActiveOf(l);
    SwitchKeepsContent(l, active, id, p);
    if active.Some? {
      var e := EntryOf(active.value, id, p);
      var l1 := Audited(l, id, e);
      var l2 := Audited(l1, active.value, e);
      AuditedKeepsContent(l, id, e);
      AuditedKeepsContent(l1, active.value, e);
      SwitchKeepsContent(l2, active, id, p);
    }
  }

  lemma {:induction false} ExecKeepsStaged(l: Ledger, c: Command)
    requires Inv(l) && Staged(l) && (c.BuildRelease? ==> !c.q.reset)
    ensures Staged(Exec(l, c))
  {
    match c
    case BuildRelease(id, q, s, promote, bootstrap, p) =>
      BeginKeepsInv(l, id, q);
      BeginOutcome(l, id, q);
      BeginKeepsStaged(l, id, q);
      var l0 := Begin(l, id, q).0;
      if Begin(l, id, q).1 == Opened { ExecuteKeepsStaged(l0, id, q, s); }
      BuildKeepsInv(l, id, q, s);
      PromoteKeepsStaged(Build(l, id, q, s).0, id, p);
    case PromoteRelease(id, p) => PromoteKeepsStaged(l, id, p);
    case LiveEdit(id, content) =>
      forall o ensures StagedAt(Exec(l, c), o) { assert StagedAt(l, o); }
    case Retire =>
      forall o ensures StagedAt(Exec(l, c), o) { assert StagedAt(l, o); }
  }

  /**
   * Over every run without `--reset`, with failures anywhere: whenever the artifact step of a release is
   * complete and it is not validated yet, its database holds the artifact and the staged import files of
   * the digest it records, so a resume can read them.
   */
  lemma {:induction false} EveryRunKeepsStaged(cs: seq<Command>)
    requires forall c :: c in cs ==> (c.BuildRelease? ==> !c.q.reset)
    ensures Staged(Run(NEW_LEDGER, cs))
  {
    if cs != [] {
      var n := |cs| - 1;
      assert cs[n] in cs && forall c :: c in cs[..n] ==> c in cs;
      EveryRunKeepsStaged(cs[..n]);
      EveryRunKeepsInv(cs[..n]);
      ExecKeepsStaged(Run(NEW_LEDGER, cs[..n]), cs[n]);
    }
  }

  // ----- a resume completes ------------------------------------------------------------------

  /** Nothing throws and nothing dies up to the end of the import. */
  predicate PlanGood(q: Request, s: Script) {
    && s.claim == Completes && s.contract == Returns && s.store == Returns
    && s.built == (q.digest, q.source.sourceRevision)
    && (forall k :: k in s.fates ==> s.fates[k] == Completes)
  }

  /** Nothing throws and nothing dies. */
  predicate AllGood(q: Request, s: Script) {
    PlanGood(q, s) && Passes(s) && s.cleanup == Returns
  }

  /** No task is held by a process whose task lease still runs. */
  predicate NothingHeld(tasks: Tasks, now: int) {
    forall t :: t in tasks && tasks[t].status == Running ==> tasks[t].expiresAt < now
  }

  predicate Runnable(tasks: Tasks, now: int) {
    forall t :: t in tasks ==> tasks[t].status == Completed || Claimable(tasks[t], now)
  }

  lemma {:induction false} GoodStepGoes(l: Ledger, id: string, now: int, t: TaskId, body: Body)
    requires id in l.releases && Runnable(l.releases[id].tasks, now) && body.fate == Completes
    ensures var out := Step(l, id, now, t, body);
      out.flow == Go && id in out.ledger.releases && Runnable(out.ledger.releases[id].tasks, now)
  {
  }

  lemma {:induction false} GoodIngestGoes(l: Ledger, id: string, now: int, keys: seq<string>, fates: map<string, Fate>,
      input: Option<Digest>)
    requires id in l.releases && Runnable(l.releases[id].tasks, now)
    requires forall k :: k in fates ==> fates[k] == Completes
    ensures IngestAll(l, id, now, keys, fates, input).1 == Go
    decreases |keys|
  {
    if keys != [] {
      var body := IngestBody(l, id, keys[0], fates, input);
      GoodStepGoes(l, id, now, TaskId(Ingest, keys[0]), body);
      GoodIngestGoes(Step(l, id, now, TaskId(Ingest, keys[0]), body).ledger, id, now, keys[1..], fates, input);
    }
  }

  lemma {:induction false} GoodPlanGoes(l: Ledger, id: string, q: Request, s: Script)
    requires id in l.releases && Runnable(l.releases[id].tasks, q.now) && PlanGood(q, s)
    requires StagedAt(l, id) && !Finished(l.releases[id].status) && l.releases[id].digest == q.digest
    ensures RunPlan(l, id, q, s).flow == Go
  {
    var (body, stage) := ArtifactBody(DatabaseOf(l, id), q, s);
    GoodStepGoes(l, id, q.now, ARTIFACT, body);
    var out := Step(l, id, q.now, ARTIFACT, body);
    if out.skipped { assert DatabaseOf(out.ledger, id) == DatabaseOf(l, id); }
    GoodIngestGoes(out.ledger, id, q.now, PlanKeys(q, s), s.fates,
      PlanReads(q, s, out.skipped, DatabaseOf(out.ledger, id)));
  }

  lemma {:induction false} GoodConclusionGoes(l: Ledger, id: string, q: Request, s: Script)
    requires id in l.releases && l.releases[id].status == Building && AllGood(q, s)
    ensures Conclude(l, id, s).flow == Go
  {
  }

  lemma {:induction false} GoodExecutionGoes(l: Ledger, id: string, q: Request, s: Script)
    requires id in l.releases && l.releases[id].status == Building && l.releases[id].digest == q.digest
    requires AllGood(q, s) && StagedAt(l, id) && NothingHeld(l.releases[id].tasks, q.now)
    ensures Execute(l, id, q, s).1 == Go
  {
    var l1 := ResumeTasks(l, id);
    GoodPlanGoes(l1, id, q, s);
    PlanKeepsRelease(l1, id, q, s);
    GoodConclusionGoes(RunPlan(l1, id, q, s).ledger, id, q, s);
  }

  /**
   * Wherever the earlier attempts stopped, an attempt in which nothing fails validates the release: it
   * needs only the execution, and no task still held by a dead process.
   */
  lemma {:induction false} ResumeCompletes(l: Ledger, id: string, q: Request, s: Script)
    requires Inv(l) && Staged(l) && AllGood(q, s)
    requires Begin(l, id, q).1 == Opened && id in Begin(l, id, q).0.releases
    requires NothingHeld(Begin(l, id, q).0.releases[id].tasks, q.now)
    ensures var (l', flow) := Build(l, id, q, s);
      flow == Go && id in l'.releases && l'.releases[id].status == Validated && StepsDone(l'.releases[id], q, s)
  {
    BeginOutcome(l, id, q);
    BeginKeepsInv(l, id, q);
    BeginKeepsStaged(l, id, q);
    var l0 := Begin(l, id, q).0;
    assert StagedAt(l0, id);
    GoodExecutionGoes(l0, id, q, s);
    ExecuteOutcome(l0, id, q, s);
  }

  /**
   * The clean-up that throws, wherever the earlier attempts stopped: the command fails over a release that is
   * validated, and the execution is free.
   */
  lemma {:induction false} ThrowingCleanUpValidates(l: Ledger, id: string, q: Request, s: Script)
    requires Inv(l) && Staged(l) && PlanGood(q, s) && Passes(s) && s.cleanup.CallThrows?
    requires Begin(l, id, q).1 == Opened && id in Begin(l, id, q).0.releases
    requires NothingHeld(Begin(l, id, q).0.releases[id].tasks, q.now)
    ensures var (l', flow) := Build(l, id, q, s);
      flow == Throw && id in l'.releases && l'.releases[id].status == Validated && l'.lease.None?
  {
    BeginOutcome(l, id, q);
    BeginKeepsInv(l, id, q);
    BeginKeepsStaged(l, id, q);
    var l0 := Begin(l, id, q).0;
    assert StagedAt(l0, id);
    OpenedPlanGoes(l0, id, q, s);
    ConcludesValidated(l0, id, q, s);
    AttemptFreesExecution(l0, id, q, s);
  }

  lemma {:induction false} OpenedPlanGoes(l: Ledger, id: string, q: Request, s: Script)
    requires id in l.releases && l.releases[id].status == Building && l.releases[id].digest == q.digest
    requires PlanGood(q, s) && StagedAt(l, id) && NothingHeld(l.releases[id].tasks, q.now)
    ensures RunPlan(ResumeTasks(l, id), id, q, s).flow == Go
  {
    GoodPlanGoes(ResumeTasks(l, id), id, q, s);
  }

  lemma {:induction false} ConcludesValidated(l: Ledger, id: string, q: Request, s: Script)
    requires id in l.releases && l.releases[id].status == Building && l.lease.Some? && l.lease.value.id == id
    requires RunPlan(ResumeTasks(l, id), id, q, s).flow == Go && Passes(s) && s.cleanup.CallThrows?
    ensures Execute(l, id, q, s).1 == Throw
  {
    PlanKeepsRelease(ResumeTasks(l, id), id, q, s);
    ConcludeFlow(RunPlan(ResumeTasks(l, id), id, q, s).ledger, id, s);
  }

  // ----- runs that show both -----------------------------------------------------------------

  /** A first build from backups in which only `publication` and `cleanup` may fail. */
  function FirstBuild(publication: Call, cleanup: Call): Command {
    BuildRelease("r", Request("host", 0, Source(FromBackups, ""), "digest", false, false),
                 Script(Completes, Returns, ("digest", ""), 0, Returns, [], map[], map[], publication, true,
                        Returns, true,
                        Returns, cleanup),
                 false, false, Promotion(false, "", false, Returns, Returns))
  }

  /** The same release again with `--reset`, by a process that stops once the database is dropped. */
  function DyingReset(): Command {
    var c := FirstBuild(Returns, Returns);
    c.(q := c.q.(reset := true, diesOpening := true))
  }

  lemma {:induction false} NewLedgerOpens(c: Command)
    requires c.BuildRelease? && c == FirstBuild(c.s.publication, c.s.cleanup)
    ensures Inv(NEW_LEDGER) && Staged(NEW_LEDGER)
    ensures Begin(NEW_LEDGER, c.id, c.q).1 == Opened && PlanGood(c.q, c.s)
    ensures var l := Begin(NEW_LEDGER, c.id, c.q).0; c.id in l.releases && l.releases[c.id].tasks == map[]
  {
    EveryRunKeepsInv([]);
  }

  /** A concrete attempt whose clean-up throws: from an empty ledger, a validated release and a failed command. */
  lemma {:induction false} CleanUpThrowsOnce()
    ensures var c := FirstBuild(Returns, CallThrows(false));
      var (l, flow) := Build(NEW_LEDGER, c.id, c.q, c.s);
      flow == Throw && c.id in l.releases && l.releases[c.id].status == Validated
  {
    var c := FirstBuild(Returns, CallThrows(false));
    NewLedgerOpens(c);
    ThrowingCleanUpValidates(NEW_LEDGER, c.id, c.q, c.s);
  }

  /** A build stopped at its publication: failed, its artifact step complete, the execution free. */
  lemma {:induction false} UnpublishedBuildFails(c: Command)
    requires c == FirstBuild(CallThrows(false), Returns)
    ensures var l := Build(NEW_LEDGER, c.id, c.q, c.s).0;
      && c.id in l.releases && l.releases[c.id].status == Failed && l.lease.None?
      && l.releases[c.id].source == c.q.source && l.releases[c.id].digest == c.q.digest
      && IsCompleted(l.releases[c.id].tasks, ARTIFACT)
    ensures Build(NEW_LEDGER, c.id, c.q, c.s).1 == Throw
  {
    NewLedgerOpens(c);
    BeginOutcome(NEW_LEDGER, c.id, c.q);
    BeginKeepsInv(NEW_LEDGER, c.id, c.q);
    BeginKeepsStaged(NEW_LEDGER, c.id, c.q);
    var l0 := Begin(NEW_LEDGER, c.id, c.q).0;
    assert StagedAt(l0, c.id);
    OpenedPlanGoes(l0, c.id, c.q, c.s);
    PlanOutcome(l0, c.id, c.q, c.s);
    PlanKeepsRelease(ResumeTasks(l0, c.id), c.id, c.q, c.s);
    UnpublishedEnds(RunPlan(ResumeTasks(l0, c.id), c.id, c.q, c.s), c.id, c.s);
  }

  lemma {:induction false} UnpublishedEnds(plan: BuildOut, id: string, s: Script)
    requires id in plan.ledger.releases && plan.ledger.releases[id].status == Building && plan.flow == Go
    requires s.publication.CallThrows? && plan.ledger.lease.Some? && plan.ledger.lease.value.id == id
    ensures var r := Ending(plan, id, s);
      && r.flow == Throw && id in r.ledger.releases && r.ledger.lease.None?
      && r.ledger.releases[id] == plan.ledger.releases[id].(status := Failed, failure := "publish")
  {
  }

  lemma {:induction false} DyingResetDrops(l: Ledger, c: Command)
    requires c == DyingReset() && Inv(l) && Staged(l) && l.lease.None? && c.id in l.releases
    requires l.releases[c.id].status == Failed && !InputDefect(l.releases[c.id], c.q.source, c.q.digest)
    requires IsCompleted(l.releases[c.id].tasks, ARTIFACT)
    ensures !Staged(Begin(l, c.id, c.q).0) && Begin(l, c.id, c.q).1 == Lost
  {
    ResetKeepsStagedExactly(l, c.id, c.q);
  }

  lemma {:induction false} LostBuildEnds(l: Ledger, c: Command)
    requires c.BuildRelease? && Begin(l, c.id, c.q).1 == Lost
    ensures Exec(l, c) == Begin(l, c.id, c.q).0
  {
  }

  lemma {:induction false} ThrownBuildEnds(l: Ledger, c: Command)
    requires c.BuildRelease? && Build(l, c.id, c.q, c.s).1 == Throw
    ensures Exec(l, c) == Build(l, c.id, c.q, c.s).0
  {
  }

  lemma {:induction false} RunOfTwo(c: Command, d: Command)
    ensures Run(NEW_LEDGER, [c]) == Exec(NEW_LEDGER, c)
    ensures Run(NEW_LEDGER, [c, d]) == Exec(Exec(NEW_LEDGER, c), d)
  {
    assert [c, d][..1] == [c] && [c][..0] == [];
    assert Run(NEW_LEDGER, []) == NEW_LEDGER;
  }

  /** The failing input is reached: a failed build, then a `--reset` that stops after the drop. */
  lemma {:induction false} DyingResetLosesStaged(c: Command, d: Command)
    requires c == FirstBuild(CallThrows(false), Returns) && d == DyingReset()
    ensures !Staged(Run(NEW_LEDGER, [c, d]))
  {
    RunOfTwo(c, d);
    UnpublishedBuildFails(c);
    ThrownBuildEnds(NEW_LEDGER, c);
    EveryRunKeepsInv([c]);
    EveryRunKeepsStaged([c]);
    var l := Run(NEW_LEDGER, [c]);
    DyingResetDrops(l, d);
    LostBuildEnds(l, d);
  }

  // ----- the promotion gate ------------------------------------------------------------------

  ghost predicate Replaces(l: Ledger, l': Ledger, a: string, b: string) {
    ActiveOf(l) == Some(a) && ActiveOf(l') == Some(b) && a != b
  }

  ghost predicate OnRecord(l: Ledger, id: string, e: AuditEntry) {
    id in l.releases && l.releases[id].audit != [] && l.releases[id].audit[|l.releases[id].audit| - 1] == e
  }

  lemma {:induction false} SwitchActive(l: Ledger, id: string, p: Promotion)
    requires Inv(l)
    ensures var l' := Switch(l, ActiveOf(l), id, p).0;
      && (ActiveOf(l') == ActiveOf(l) || ActiveOf(l') == Some(id))
      && (forall o :: o in l.releases ==> o in l'.releases && l'.releases[o].audit == l.releases[o].audit)
  {
    SwitchKeepsInv(l, id, p);
    var l' := Switch(l, ActiveOf(l), id, p).0;
    if l' != l { ActiveIs(l', id); }
  }

  /** A promotion that replaces an active release serving live changes is asked for, and both ledger entries say so. */
  lemma {:induction false} PromotionIsGated(l: Ledger, id: string, p: Promotion, a: string, b: string)
    requires Inv(l) && Replaces(l, Promote(l, id, p).0, a, b)
    ensures b == id
    ensures HasNotice(l, a) ==>
      p.discard && OnRecord(Promote(l, id, p).0, a, EntryOf(a, b, p))
      && OnRecord(Promote(l, id, p).0, b, EntryOf(a, b, p))
  {
    SwitchActive(l, id, p);
    if HasNotice(l, a) && a != id {
      var e := EntryOf(a, id, p);
      var l1 := Audited(l, id, e);
      var l2 := Audited(l1, a, e);
      AuditedKeepsInv(l, id, e);
      AuditedKeepsInv(l1, a, e);
      SwitchActive(l2, id, p);
      SwitchKeepsInv(l2, id, p);
    }
  }

  /** The active release of a ledger is active in another, unchanged and with its database, and no other is. */
  lemma {:induction false} SameActive(l: Ledger, l': Ledger)
    requires Inv(l) && Inv(l')
    requires forall o :: o in l.releases && l.releases[o].status == Active ==>
               o in l'.releases && l'.releases[o] == l.releases[o] && DatabaseOf(l', o) == DatabaseOf(l, o)
    requires forall o :: o in l'.releases && l'.releases[o].status == Active ==>
               o in l.releases && l'.releases[o] == l.releases[o]
    ensures ActiveOf(l') == ActiveOf(l)
    ensures ActiveOf(l).Some? ==> (HasNotice(l', ActiveOf(l).value) <==> HasNotice(l, ActiveOf(l).value))
  {
    if ActiveOf(l').Some? { ActiveIs(l, ActiveOf(l').value); }
    if ActiveOf(l).Some? { ActiveIs(l', ActiveOf(l).value); }
  }

  /** What is active in one of the ledgers under an id is the same release in the other. */
  ghost predicate ActiveKept(l: Ledger, l': Ledger, o: string) {
    && (o in l.releases && l.releases[o].status == Active ==> o in l'.releases && l'.releases[o] == l.releases[o])
    && (o in l'.releases && l'.releases[o].status == Active ==> o in l.releases && l'.releases[o] == l.releases[o])
  }

  lemma {:induction false} FinishedIsActiveKept(l: Ledger, l': Ledger, o: string)
    requires FinishedKept(l, l')
    ensures ActiveKept(l, l', o)
  {
  }

  lemma {:induction false} FinishedThrough(l: Ledger, l0: Ledger, l': Ledger, id: string, o: string)
    requires FinishedKept(l, l0) && id in l0.releases && l0.releases[id].status == Building
    requires OnlyMoves(l0, l', id) && l'.releases[id].status != Active
    ensures ActiveKept(l, l', o)
  {
  }

  lemma {:induction false} BuildIs(l: Ledger, id: string, q: Request, s: Script)
    ensures Begin(l, id, q).1 != Opened ==> Build(l, id, q, s).0 == Begin(l, id, q).0
    ensures Begin(l, id, q).1 == Opened ==>
      id in Begin(l, id, q).0.releases && Build(l, id, q, s) == Execute(Begin(l, id, q).0, id, q, s)
  {
  }

  lemma {:induction false} BuildKeepsFinished(l: Ledger, id: string, q: Request, s: Script, o: string)
    requires Inv(l)
    ensures ActiveKept(l, Build(l, id, q, s).0, o)
  {
    BeginKeepsInv(l, id, q);
    BeginOutcome(l, id, q);
    BuildIs(l, id, q, s);
    var l0 := Begin(l, id, q).0;
    if Begin(l, id, q).1 == Opened {
      ExecuteOutcome(l0, id, q, s);
      FinishedThrough(l, l0, Execute(l0, id, q, s).0, id, o);
    } else {
      FinishedIsActiveKept(l, l0, o);
    }
  }

  /** A build leaves the active release, and what it serves, as they are. */
  lemma {:induction false} BuildKeepsActive(l: Ledger, id: string, q: Request, s: Script)
    requires Inv(l)
    ensures var l' := Build(l, id, q, s).0;
      && ActiveOf(l') == ActiveOf(l)
      && (ActiveOf(l).Some? ==> (HasNotice(l', ActiveOf(l).value) <==> HasNotice(l, ActiveOf(l).value)))
  {
    BuildKeepsInv(l, id, q, s);
    forall o
      ensures o in l.releases && l.releases[o].status == Active ==>
                o in Build(l, id, q, s).0.releases && Build(l, id, q, s).0.releases[o] == l.releases[o]
                && DatabaseOf(Build(l, id, q, s).0, o) == DatabaseOf(l, o)
      ensures o in Build(l, id, q, s).0.releases && Build(l, id, q, s).0.releases[o].status == Active ==>
                o in l.releases && Build(l, id, q, s).0.releases[o] == l.releases[o]
    {
      BuildKeepsFinished(l, id, q, s, o);
      if o in l.releases && l.releases[o].status == Active { BuildKeepsDatabases(l, id, q, s, o); }
    }
    SameActive(l, Build(l, id, q, s).0);
  }

  lemma {:induction false} FailKeepsDatabases(l: Ledger, id: string, stage: string)
    ensures FailRelease(l, id, stage).databases == l.databases
  {
  }

  lemma {:induction false} ExecuteDatabases(l: Ledger, id: string, q: Request, s: Script)
    requires id in l.releases
    ensures var plan := RunPlan(ResumeTasks(l, id), id, q, s);
      && id in plan.ledger.releases
      && Execute(l, id, q, s).0.databases
         == (if plan.flow != Go then plan.ledger else Conclude(plan.ledger, id, s).ledger).databases
  {
    var plan := RunPlan(ResumeTasks(l, id), id, q, s);
    PlanKeepsRelease(ResumeTasks(l, id), id, q, s);
    var out := if plan.flow != Go then plan else Conclude(plan.ledger, id, s);
    FailKeepsDatabases(out.ledger, id, out.stage);
  }

  lemma {:induction false} SameDatabases(a: Ledger, b: Ledger, o: string)
    requires a.databases == b.databases
    ensures DatabaseOf(a, o) == DatabaseOf(b, o)
  {
  }

  lemma {:induction false} ExecuteKeepsDatabases(l: Ledger, id: string, q: Request, s: Script, o: string)
    requires o != id && id in l.releases && l.releases[id].status == Building
    ensures DatabaseOf(Execute(l, id, q, s).0, o) == DatabaseOf(l, o)
  {
    var l1 := ResumeTasks(l, id);
    ExecuteDatabases(l, id, q, s);
    PlanKeepsRelease(l1, id, q, s);
    SameDatabases(l1, l, o);
    var plan := RunPlan(l1, id, q, s);
    var last := if plan.flow != Go then plan.ledger else Conclude(plan.ledger, id, s).ledger;
    if plan.flow == Go { ConcludeKeepsArtifact(plan.ledger, id, s); }
    SameDatabases(Execute(l, id, q, s).0, last, o);
  }

  lemma {:induction false} BuildKeepsDatabases(l: Ledger, id: string, q: Request, s: Script, o: string)
    requires o != id || (o in l.releases && Finished(l.releases[o].status))
    ensures DatabaseOf(Build(l, id, q, s).0, o) == DatabaseOf(l, o)
  {
    var l0 := Begin(l, id, q).0;
    assert DatabaseOf(l0, o) == DatabaseOf(l, o);
    BeginOutcome(l, id, q);
    if Begin(l, id, q).1 == Opened { ExecuteKeepsDatabases(l0, id, q, s, o); }
  }

  ghost function PromotionOf(c: Command): Option<Promotion> {
    match c
    case BuildRelease(_, _, _, _, _, p) => Some(p)
    case PromoteRelease(_, p) => Some(p)
    case _ => None
  }

  /**
   * The gate, for one command: a release that serves live changes or has no known fingerprint is replaced
   * only under `--discard-live-changes`, which leaves one same audit entry on both releases; a build with
   * only `--bootstrap` replaces no active release at all.
   */
  lemma {:induction false} EveryReplacementIsGated(l: Ledger, c: Command, a: string, b: string)
    requires Inv(l) && Replaces(l, Exec(l, c), a, b)
    ensures PromotionOf(c).Some?
    ensures HasNotice(l, a) ==>
              PromotionOf(c).value.discard
              && OnRecord(Exec(l, c), a, EntryOf(a, b, PromotionOf(c).value))
              && OnRecord(Exec(l, c), b, EntryOf(a, b, PromotionOf(c).value))
    ensures c.BuildRelease? ==> c.promote && b == c.id
  {
    match c
    case BuildRelease(id, q, s, promote, bootstrap, p) =>
      BuildKeepsActive(l, id, q, s);
      BuildKeepsInv(l, id, q, s);
      var l0 := Build(l, id, q, s).0;
      if Build(l, id, q, s).1 == Go && promote { PromotionIsGated(l0, id, p, a, b); }
    case PromoteRelease(id, p) => PromotionIsGated(l, id, p, a, b);
    case LiveEdit(id, content) =>
    case Retire => RetireKeepsInv(l);
  }

  /** The gate over runs: it holds of every command of every run. */
  lemma {:induction false} EveryRunIsGated(cs: seq<Command>, k: nat, a: string, b: string)
    requires k < |cs| && Replaces(Run(NEW_LEDGER, cs[..k]), Run(NEW_LEDGER, cs[..k + 1]), a, b)
    ensures PromotionOf(cs[k]).Some? && (cs[k].BuildRelease? ==> cs[k].promote)
    ensures HasNotice(Run(NEW_LEDGER, cs[..k]), a) ==>
              var after, e := Run(NEW_LEDGER, cs[..k + 1]), EntryOf(a, b, PromotionOf(cs[k]).value);
              PromotionOf(cs[k]).value.discard && OnRecord(after, a, e) && OnRecord(after, b, e)
  {
    assert cs[..k + 1][..k] == cs[..k];
    EveryRunKeepsInv(cs[..k]);
    EveryReplacementIsGated(Run(NEW_LEDGER, cs[..k]), cs[k], a, b);
  }
}
