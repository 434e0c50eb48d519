/**
 * The release commands as they run: every ledger write in its place, the `stage` variable that names
 * where a build is, and the loop of the artifact import.
 */
module ReleaseService {
  import opened Wrappers
  import opened ReleaseLedger
  import opened ReleaseRuns

  class Releases {
    var ledger: Ledger

    constructor ()
      ensures ledger == NEW_LEDGER && Inv(ledger)
    {
      ledger := NEW_LEDGER;
    }

    method Fail(id: string, stage: string)
      modifies this
      ensures ledger == FailRelease(old(ledger), id, stage)
    {
      if id in ledger.releases && (ledger.releases[id].status == Building || ledger.releases[id].status == Candidate) {
        if ledger.lease.Some? && ledger.lease.value.id == id { ledger := ledger.(lease := None); }
        ledger := Put(ledger, id, ledger.releases[id].(status := Failed, failure := stage));
      }
    }

    /** Opens a release, or resumes one, and takes the execution. */
    method Open(id: string, q: Request) returns (opening: Opening)
      modifies this
      ensures (ledger, opening) == Begin(old(ledger), id, q)
    {
      if id in ledger.releases {
        var existing := ledger.releases[id];
        if InputDefect(existing, q.source, q.digest) { return Refused; }
        if Finished(existing.status) { return Skipped; }
        if ledger.lease.Some? && ledger.lease.value.id == id && q.now - ledger.lease.value.heartbeatAt < LEASE_MS {
          return Refused;
        }
      }
      if id !in ledger.releases || q.reset { ledger := PutDatabase(ledger, id, EMPTY_DB); }
      if q.diesOpening { return Lost; }
      if ledger.lease.Some? && ledger.lease.value.id != id {
        if q.now - ledger.lease.value.heartbeatAt < LEASE_MS { return Refused; }
        Fail(ledger.lease.value.id, "lease");
        if ledger.lease.Some? { return Refused; }
      }
      ledger := Acquired(ledger, id, q);
      return Opened;
    }

    method SetTask(id: string, t: TaskId, task: Task)
      requires id in ledger.releases
      modifies this
      ensures ledger == WithTask(old(ledger), id, t, task)
    {
      var r := ledger.releases[id];
      ledger := ledger.(releases := ledger.releases[id := r.(tasks := r.tasks[t := task])]);
    }

    /** Runs one step of a release once. */
    method ReleaseStep(id: string, now: int, t: TaskId, body: Body) returns (flow: Flow, skipped: bool)
      requires id in ledger.releases
      modifies this
      ensures StepOut(ledger, flow, skipped) == Step(old(ledger), id, now, t, body)
      ensures id in ledger.releases
    {
      var tasks := Ensured(ledger.releases[id].tasks, t);
      ledger := Put(ledger, id, ledger.releases[id].(tasks := tasks));
      var task := tasks[t];
      if task.status == Completed { return Go, true; }
      if body.fate == DiesUnclaimed { return Die, false; }
      if !Claimable(task, now) { return Throw, false; }
      var claim := Claimed(task, now);
      SetTask(id, t, claim);
      if body.fate == DiesClaimed { return Die, false; }
      ledger := AfterBody(ledger, id, t, body);
      match body.fate {
        case Throws(transient) =>
          SetTask(id, t, Ended(claim, transient));
          return Throw, false;
        case Completes =>
          SetTask(id, t, claim.(status := Completed));
          ledger := Logged(ledger, Done(id, ledger.releases[id].generation, t));
          return Go, false;
        case _ =>
          return Die, false;
      }
    }

    /** The imports of the artifact in dependency order; the first that stops ends the loop. */
    method ImportArtifact(id: string, now: int, keys: seq<string>, fates: map<string, Fate>, input: Option<Digest>)
      returns (flow: Flow)
      requires id in ledger.releases
      modifies this
      ensures (ledger, flow) == IngestAll(old(ledger), id, now, keys, fates, input)
      ensures id in ledger.releases
    {
      flow := Go;
      for i := 0 to |keys|
        invariant id in ledger.releases && flow == Go
        invariant IngestAll(old(ledger), id, now, keys, fates, input)
            == IngestAll(ledger, id, now, keys[i..], fates, input)
      {
        assert keys[i..][0] == keys[i] && keys[i..][1..] == keys[i + 1..];
        var skipped;
        flow, skipped := ReleaseStep(id, now, TaskId(Ingest, keys[i]), IngestBody(ledger, id, keys[i], fates, input));
        if flow != Go { return; }
      }
    }

    /** The `build` of a plan; `stage` is where it is when it stops. */
    method BuildContent(id: string, q: Request, s: Script) returns (flow: Flow, stage: string)
      requires id in ledger.releases
      modifies this
      ensures BuildOut(ledger, flow, stage) == RunPlan(old(ledger), id, q, s)
      ensures id in ledger.releases
    {
      stage := "artifact";
      var (body, reached) := ArtifactBody(DatabaseOf(ledger, id), q, s);
      var before := ledger.log;
      var skipped;
      flow, skipped := ReleaseStep(id, q.now, ARTIFACT, body);
      if flow != Go {
        if ledger.log != before { stage := reached; }
        return;
      }
      if q.source.from == FromSource && skipped && !Materializes(DatabaseOf(ledger, id), q.digest) {
        flow := Throw;
        return;
      }
      stage := "ingest";
      flow := ImportArtifact(id, q.now, PlanKeys(q, s), s.fates, PlanReads(q, s, skipped, DatabaseOf(ledger, id)));
    }

    /** Publication, candidate, validation, validated, and the staged files that nothing imports any more. */
    method Settle(id: string, s: Script) returns (flow: Flow, stage: string)
      requires id in ledger.releases
      modifies this
      ensures BuildOut(ledger, flow, stage) == Conclude(old(ledger), id, s)
      ensures id in ledger.releases
    {
      ledger := PutDatabase(ledger, id, DatabaseOf(ledger, id).(content := s.content));
      stage := "publish";
      flow := CallFlow(s.publication);
      if flow != Go { return; }
      if !s.published { return Throw, stage; }
      var advanced := Advance(ledger, id, Candidate, None);
      if advanced.None? { return Throw, stage; }
      ledger := advanced.value;
      stage := "validate";
      flow := CallFlow(s.validation);
      if flow != Go { return; }
      if !s.valid { return Throw, stage; }
      flow := CallFlow(s.fingerprint);
      if flow != Go { return; }
      advanced := Advance(ledger, id, Validated, Some(s.content));
      if advanced.None? { return Throw, stage; }
      ledger := advanced.value;
      flow := CallFlow(s.cleanup);
      if flow != Go { return; }
      ledger := PutDatabase(ledger, id, DatabaseOf(ledger, id).(staged := None));
    }

    /** Builds one release through its lifecycle. */
    method BuildRelease(id: string, q: Request, s: Script) returns (flow: Flow)
      modifies this
      ensures (ledger, flow) == Build(old(ledger), id, q, s)
      ensures old(Inv(ledger)) ==> Inv(ledger)
    {
      if Inv(ledger) { BuildKeepsInv(ledger, id, q, s); }
      if Begin(ledger, id, q).1 == Opened { BeginOpens(ledger, id, q); }
      var opening := Open(id, q);
      match opening {
        case Skipped => return Go;
        case Refused => return Throw;
        case Lost => return Die;
        case Opened =>
          ledger := ResumeTasks(ledger, id);
          ghost var l0 := ledger;
          var stage;
          flow, stage := BuildContent(id, q, s);
          if flow == Go {
            flow, stage := Settle(id, s);
          }
          if flow == Throw { Fail(id, stage); }
      }
    }

    /** Promotes a release; live changes of the active one block it or are put on record. */
    method PromoteRelease(id: string, p: Promotion) returns (flow: Flow)
      requires Inv(ledger)
      modifies this
      ensures (ledger, flow) == Promote(old(ledger), id, p)
      ensures Inv(ledger)
    {
      PromoteKeepsInv(ledger, id, p);
      var active := Active();
      if active.Some? && active.value != id
         && ServesLiveChanges(ledger.releases[active.value], DatabaseOf(ledger, active.value)) {
        if !p.discard { return Throw; }
        var entry := EntryOf(active.value, id, p);
        ledger := Audited(ledger, id, entry);
        ledger := Audited(ledger, active.value, entry);
        if p.audited != Returns { return CallFlow(p.audited); }
      }
      ghost var before := ledger;
      if id !in ledger.releases { return Throw; }
      if ledger.releases[id].status == ReleaseLedger.Active { return Go; }
      if !Promotable(ledger.releases[id], p.production) { return Throw; }
      if p.registry != Returns { return CallFlow(p.registry); }
      if active.Some? { ledger := Put(ledger, active.value, ledger.releases[active.value].(status := Retired)); }
      ledger := Put(ledger, id, ledger.releases[id].(status := ReleaseLedger.Active));
      return Go;
    }

    method Active() returns (active: Option<string>)
      requires OneActive(ledger)
      ensures active == ActiveOf(ledger)
      ensures active.Some? ==>
        active.value in ledger.releases && ledger.releases[active.value].status == ReleaseLedger.Active
    {
      if exists id :: id in ledger.releases && ledger.releases[id].status == ReleaseLedger.Active {
        var id :| id in ledger.releases && ledger.releases[id].status == ReleaseLedger.Active;
        ActiveIs(ledger, id);
        return Some(id);
      }
      return None;
    }
  }
}
