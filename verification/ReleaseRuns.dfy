/**
 * Runs of release commands over one ledger: builds with failures anywhere, promotions and live
 * edits, what every run keeps and what every promotion leaves on record.
 */
module ReleaseRuns {
  import opened Wrappers
  import opened ReleaseLedger

  // ----- promotion ---------------------------------------------------------------------------

  /** The active release; the unique index allows one. */
  ghost function ActiveOf(l: Ledger): Option<string> {
    if exists id :: id in l.releases && l.releases[id].status == Active then
      var id :| id in l.releases && l.releases[id].status == Active;
      Some(id)
    else None
  }

  /** It records no fingerprint, or an API it serves differs from it. */
  predicate ServesLiveChanges(r: Release, db: Database) {
    || r.fingerprint.None?
    || exists api :: api in r.fingerprint.value && (api !in db.content || db.content[api] != r.fingerprint.value[api])
  }

  ghost predicate HasNotice(l: Ledger, id: string) {
    && id in l.releases && l.releases[id].status == Active
    && ServesLiveChanges(l.releases[id], DatabaseOf(l, id))
  }

  /** What a promotion is run with. `registry`: how the reconciliation in its transaction ends. */
  datatype Promotion = Promotion(discard: bool, author: string, production: bool, audited: Call, registry: Call)

  predicate Promotable(r: Release, production: bool) {
    && r.status in {Validated, Retired}
    && (production && r.status == Validated ==> r.source.from == FromSource)
  }

  function RetireActive(l: Ledger, active: Option<string>): Ledger {
    if active.Some? && active.value in l.releases then
      Put(l, active.value, l.releases[active.value].(status := Retired))
    else l
  }

  /** `promoteContentRelease`: one transaction, so all of it or nothing. */
  function Switch(l: Ledger, active: Option<string>, id: string, p: Promotion): (Ledger, Flow) {
    if id !in l.releases then (l, Throw)
    else if l.releases[id].status == Active then (l, Go)
    else if !Promotable(l.releases[id], p.production) then (l, Throw)
    else if p.registry != Returns then (l, CallFlow(p.registry))
    else
      var l' := RetireActive(l, active);
      if id in l'.releases then (Put(l', id, l'.releases[id].(status := Active)), Go) else (l', Throw)
  }

  function EntryOf(discarded: string, promoted: string, p: Promotion): AuditEntry {
    AuditEntry(p.author, "discard-live-changes", discarded, promoted)
  }

  function Audited(l: Ledger, id: string, e: AuditEntry): Ledger {
    if id in l.releases then Put(l, id, l.releases[id].(audit := l.releases[id].audit + [e])) else l
  }

  /** `promoteRelease`. */
  ghost function Promote(l: Ledger, id: string, p: Promotion): (Ledger, Flow) {
    var active := ActiveOf(l);
    if active.Some? && active.value != id && HasNotice(l, active.value) then
      if !p.discard then (l, Throw)
      else
        var e := EntryOf(active.value, id, p);
        var l' := Audited(Audited(l, id, e), active.value, e);
        if p.audited != Returns then (l', CallFlow(p.audited)) else Switch(l', active, id, p)
    else Switch(l, active, id, p)
  }

  // ----- runs --------------------------------------------------------------------------------

  datatype Command =
    | BuildRelease(id: string, q: Request, s: Script, promote: bool, bootstrap: bool, p: Promotion)
    | PromoteRelease(id: string, p: Promotion)
    | LiveEdit(id: string, content: map<string, string>)
    | Retire

  ghost function Exec(l: Ledger, c: Command): Ledger {
    match c
    case BuildRelease(id, q, s, promote, bootstrap, p) =>
      var (l', flow) := Build(l, id, q, s);
      if flow == Go && (promote || (bootstrap && ActiveOf(l') == None)) then Promote(l', id, p).0 else l'
    case PromoteRelease(id, p) => Promote(l, id, p).0
    case LiveEdit(id, content) => PutDatabase(l, id, DatabaseOf(l, id).(content := content))
    case Retire => RetireActive(l, ActiveOf(l))
  }

  ghost function Run(l: Ledger, cs: seq<Command>): Ledger {
    if cs == [] then l else Exec(Run(l, cs[..|cs| - 1]), cs[|cs| - 1])
  }

  const NEW_LEDGER := Ledger(map[], map[], None, [])

  // ----- what every run keeps ----------------------------------------------------------------

  predicate SameStep(a: Event, b: Event) {
    a.id == b.id && a.generation == b.generation && a.task == b.task
  }

  /** No step body runs after the step was recorded as done in its generation. */
  ghost predicate NoRerun(log: seq<Event>) {
    forall i, j :: 0 <= i < j < |log| && log[i].Done? && log[j].Ran? ==> !SameStep(log[i], log[j])
  }

  ghost predicate Explained(l: Ledger, e: Event) {
    && e.id in l.releases && e.generation <= l.releases[e.id].generation
    && (e.Done? && e.generation == l.releases[e.id].generation ==> IsCompleted(l.releases[e.id].tasks, e.task))
    && (e.Ran? && e.input.Some? ==> e.input.value == l.releases[e.id].digest)
  }

  /** The history agrees with the ledger, and every artifact content that was read is its release's. */
  ghost predicate History(l: Ledger) {
    forall e :: e in l.log ==> Explained(l, e)
  }

  ghost predicate OneActive(l: Ledger) {
    forall a, b ::
      a in l.releases && b in l.releases && l.releases[a].status == Active && l.releases[b].status == Active ==> a == b
  }

  ghost predicate LeaseHeld(l: Ledger) {
    l.lease.Some? ==> l.lease.value.id in l.releases && Executing(l.releases[l.lease.value.id].status)
  }

  ghost predicate Inv(l: Ledger) {
    NoRerun(l.log) && History(l) && OneActive(l) && LeaseHeld(l)
  }

  // ----- steps keep the history --------------------------------------------------------------

  lemma {:induction false} NoRerunSnoc(log: seq<Event>, e: Event)
    requires NoRerun(log)
    requires e.Ran? ==> forall d :: d in log && d.Done? ==> !SameStep(d, e)
    ensures NoRerun(log + [e])
  {
    forall i, j | 0 <= i < j < |log + [e]| && (log + [e])[i].Done? && (log + [e])[j].Ran?
      ensures !SameStep((log + [e])[i], (log + [e])[j])
    {
      if j == |log| { assert log[i] in log; }
    }
  }

  /** A change of one release that keeps its generation, its digest and its completed tasks keeps the history. */
  lemma {:induction false} HistoryKept(l: Ledger, l': Ledger, id: string)
    requires History(l) && l'.log == l.log && id in l.releases && id in l'.releases
    requires l'.releases == l.releases[id := l'.releases[id]]
    requires l'.releases[id].generation == l.releases[id].generation && l'.releases[id].digest == l.releases[id].digest
    requires forall t :: IsCompleted(l.releases[id].tasks, t) ==> IsCompleted(l'.releases[id].tasks, t)
    ensures History(l')
  {
    forall e | e in l'.log ensures Explained(l', e) { assert Explained(l, e); }
  }

  lemma {:induction false} HistoryLogged(l: Ledger, e: Event)
    requires History(l) && Explained(l, e)
    ensures History(Logged(l, e))
  {
    forall x | x in Logged(l, e).log ensures Explained(Logged(l, e), x) {
      if x in l.log { assert Explained(l, x); }
    }
  }

  lemma {:induction false} RunIsNew(l: Ledger, id: string, t: TaskId, input: Option<Digest>)
    requires History(l) && id in l.releases && !IsCompleted(l.releases[id].tasks, t)
    ensures forall d :: d in l.log && d.Done? ==> !SameStep(d, Ran(id, l.releases[id].generation, t, input))
  {
    forall d | d in l.log && d.Done? ensures !SameStep(d, Ran(id, l.releases[id].generation, t, input)) {
      assert Explained(l, d);
    }
  }

  ghost predicate OwnContent(input: Option<Digest>, r: Release) {
    input.Some? ==> input.value == r.digest
  }

  lemma {:induction false} StepKeepsHistory(l: Ledger, id: string, now: int, t: TaskId, body: Body)
    requires NoRerun(l.log) && History(l) && id in l.releases && OwnContent(body.input, l.releases[id])
    ensures var l' := Step(l, id, now, t, body).ledger; NoRerun(l'.log) && History(l')
    ensures forall x :: IsCompleted(l.releases[id].tasks, x) ==>
      IsCompleted(Step(l, id, now, t, body).ledger.releases[id].tasks, x)
  {
    var tasks := Ensured(l.releases[id].tasks, t);
    var l0 := Put(l, id, l.releases[id].(tasks := tasks));
    HistoryKept(l, l0, id);
    if tasks[t].status != Completed && body.fate != DiesUnclaimed && Claimable(tasks[t], now) {
      var claim := Claimed(tasks[t], now);
      var l1 := WithTask(l0, id, t, claim);
      HistoryKept(l0, l1, id);
      if body.fate != DiesClaimed {
        var ran := Ran(id, l.releases[id].generation, t, body.input);
        RunIsNew(l1, id, t, body.input);
        NoRerunSnoc(l1.log, ran);
        var l2 := AfterBody(l1, id, t, body);
        HistoryLogged(l1, ran);
        assert History(l2);
        if body.fate.Throws? {
          HistoryKept(l2, WithTask(l2, id, t, Ended(claim, body.fate.transient)), id);
        } else if body.fate == Completes {
          var l3 := WithTask(l2, id, t, claim.(status := Completed));
          HistoryKept(l2, l3, id);
          NoRerunSnoc(l3.log, Done(id, l.releases[id].generation, t));
          HistoryLogged(l3, Done(id, l.releases[id].generation, t));
        }
      }
    }
  }

  lemma {:induction false} StepCompletes(l: Ledger, id: string, now: int, t: TaskId, body: Body)
    requires id in l.releases && Step(l, id, now, t, body).flow == Go
    ensures IsCompleted(Step(l, id, now, t, body).ledger.releases[id].tasks, t)
  {
  }

  lemma {:induction false} IngestKeepsHistory(l: Ledger, id: string, now: int, keys: seq<string>,
      fates: map<string, Fate>, input: Option<Digest>)
    requires NoRerun(l.log) && History(l) && id in l.releases && OwnContent(input, l.releases[id])
    ensures var (l', flow) := IngestAll(l, id, now, keys, fates, input);
      && NoRerun(l'.log) && History(l') && id in l'.releases
      && (forall x :: IsCompleted(l.releases[id].tasks, x) ==> IsCompleted(l'.releases[id].tasks, x))
      && (flow == Go ==> forall k :: k in keys ==> IsCompleted(l'.releases[id].tasks, TaskId(Ingest, k)))
    decreases |keys|
  {
    if keys != [] {
      var t, body := TaskId(Ingest, keys[0]), IngestBody(l, id, keys[0], fates, input);
      var out := Step(l, id, now, t, body);
      StepKeepsHistory(l, id, now, t, body);
      StepKeepsRelease(l, id, now, t, body);
      if out.flow == Go {
        var rest := IngestAll(out.ledger, id, now, keys[1..], fates, input);
        assert IngestAll(l, id, now, keys, fates, input) == rest;
        StepCompletes(l, id, now, t, body);
        IngestKeepsHistory(out.ledger, id, now, keys[1..], fates, input);
        assert IsCompleted(rest.0.releases[id].tasks, t);
        assert forall k :: k in keys ==> k == keys[0] || k in keys[1..];
      }
    }
  }

  /** An artifact step that completes has stored the content and the revision the request names. */
  lemma {:induction false} UnskippedPlanBuilt(l: Ledger, id: string, q: Request, s: Script)
    requires id in l.releases
    ensures var out := Step(l, id, q.now, ARTIFACT, ArtifactBody(DatabaseOf(l, id), q, s).0);
      out.flow == Go && !out.skipped ==>
        RootDigest(q, s) == q.digest && Materializes(DatabaseOf(out.ledger, id), q.digest)
  {
  }

  lemma {:induction false} PlanKeepsHistory(l: Ledger, id: string, q: Request, s: Script)
    requires NoRerun(l.log) && History(l) && id in l.releases && q.digest == l.releases[id].digest
    ensures var out := RunPlan(l, id, q, s);
      && NoRerun(out.ledger.log) && History(out.ledger) && id in out.ledger.releases
      && (out.flow == Go ==>
            && IsCompleted(out.ledger.releases[id].tasks, ARTIFACT)
            && forall k :: k in PlanKeys(q, s) ==> IsCompleted(out.ledger.releases[id].tasks, TaskId(Ingest, k)))
  {
    var (body, stage) := ArtifactBody(DatabaseOf(l, id), q, s);
    StepKeepsHistory(l, id, q.now, ARTIFACT, body);
    StepKeepsRelease(l, id, q.now, ARTIFACT, body);
    var out := Step(l, id, q.now, ARTIFACT, body);
    var lost := q.source.from == FromSource && out.skipped && !Materializes(DatabaseOf(out.ledger, id), q.digest);
    if out.flow == Go && !lost {
      UnskippedPlanBuilt(l, id, q, s);
      IngestKeepsHistory(out.ledger, id, q.now, PlanKeys(q, s), s.fates,
        PlanReads(q, s, out.skipped, DatabaseOf(out.ledger, id)));
    }
  }

  // ----- every command keeps the invariant ---------------------------------------------------

  /** A change of the status of a release, no more than its failure, fingerprint and audit beside it. */
  lemma {:induction false} StatusKept(l: Ledger, id: string, r: Release)
    requires Inv(l) && id in l.releases
    requires r.generation == l.releases[id].generation && r.digest == l.releases[id].digest && r.tasks
        == l.releases[id].tasks
    requires r.status == Active ==> l.releases[id].status == Active
    requires Executing(r.status) || l.lease.None? || l.lease.value.id != id
    ensures Inv(Put(l, id, r))
  {
    HistoryKept(l, Put(l, id, r), id);
  }

  lemma {:induction false} DatabaseKeepsInv(l: Ledger, id: string, db: Database)
    requires Inv(l)
    ensures Inv(PutDatabase(l, id, db))
  {
    forall e | e in l.log ensures Explained(PutDatabase(l, id, db), e) { assert Explained(l, e); }
  }

  lemma {:induction false} FreedKeepsInv(l: Ledger, id: string)
    requires Inv(l)
    ensures Inv(Freed(l, id))
  {
    forall e | e in l.log ensures Explained(Freed(l, id), e) { assert Explained(l, e); }
  }

  lemma {:induction false} FailKeepsInv(l: Ledger, id: string, stage: string)
    requires Inv(l)
    ensures Inv(FailRelease(l, id, stage))
  {
    if id in l.releases && Executing(l.releases[id].status) {
      FreedKeepsInv(l, id);
      StatusKept(Freed(l, id), id, l.releases[id].(status := Failed, failure := stage));
      assert FailRelease(l, id, stage) == Put(Freed(l, id), id, l.releases[id].(status := Failed, failure := stage));
    }
  }

  lemma {:induction false} AcquiredKeepsInv(l: Ledger, id: string, q: Request)
    requires Inv(l) && (id in l.releases ==> !Finished(l.releases[id].status))
    ensures Inv(Acquired(l, id, q))
  {
    var l' := Acquired(l, id, q);
    forall e | e in l'.log ensures Explained(l', e) { assert Explained(l, e); }
  }

  lemma {:induction false} BeginKeepsInv(l: Ledger, id: string, q: Request)
    requires Inv(l)
    ensures Inv(Begin(l, id, q).0)
  {
    if Entry(l, id, q) == Opened {
      DatabaseKeepsInv(l, id, EMPTY_DB);
      var l0 := if id !in l.releases || q.reset then PutDatabase(l, id, EMPTY_DB) else l;
      if !q.diesOpening {
        if l0.lease.None? || l0.lease.value.id == id {
          AcquiredKeepsInv(l0, id, q);
        } else if !LeaseLive(l0.lease.value, q.now) {
          FailKeepsInv(l0, l0.lease.value.id, "lease");
          AcquiredKeepsInv(FailRelease(l0, l0.lease.value.id, "lease"), id, q);
        }
      }
    }
  }

  /** The finished releases are the same, unchanged. */
  ghost predicate FinishedKept(l: Ledger, l': Ledger) {
    && (forall o :: o in l.releases && Finished(l.releases[o].status) ==>
           o in l'.releases && l'.releases[o] == l.releases[o])
    && (forall o :: o in l'.releases && Finished(l'.releases[o].status) ==>
           o in l.releases && l'.releases[o] == l.releases[o])
  }

  ghost predicate OpenedFor(l: Ledger, id: string, q: Request) {
    && id in l.releases && l.releases[id].status == Building
    && l.releases[id].digest == q.digest && l.releases[id].source == q.source
    && l.lease == Some(Lease(id, q.holder, q.now))
  }

  lemma {:induction false} AcquiredOutcome(l: Ledger, id: string, q: Request)
    requires id in l.releases ==> !Finished(l.releases[id].status) && !InputDefect(l.releases[id], q.source, q.digest)
    ensures OpenedFor(Acquired(l, id, q), id, q) && FinishedKept(l, Acquired(l, id, q))
  {
  }

  lemma {:induction false} FailFinished(l: Ledger, id: string, stage: string)
    ensures FinishedKept(l, FailRelease(l, id, stage))
  {
  }

  /** An opened release is building with the input it was asked for, and no finished release moves. */
  lemma {:induction false} BeginOutcome(l: Ledger, id: string, q: Request)
    ensures Begin(l, id, q).1 == Opened ==> OpenedFor(Begin(l, id, q).0, id, q)
    ensures FinishedKept(l, Begin(l, id, q).0)
  {
    if Entry(l, id, q) == Opened && !q.diesOpening {
      var l0 := if id !in l.releases || q.reset then PutDatabase(l, id, EMPTY_DB) else l;
      AcquireOutcome(l0, id, q);
    }
  }

  lemma {:induction false} AcquireOutcome(l: Ledger, id: string, q: Request)
    requires id in l.releases ==> !Finished(l.releases[id].status) && !InputDefect(l.releases[id], q.source, q.digest)
    ensures Acquire(l, id, q).1 == Opened ==> OpenedFor(Acquire(l, id, q).0, id, q)
    ensures Acquire(l, id, q).1 in {Opened, Refused}
    ensures FinishedKept(l, Acquire(l, id, q).0)
  {
    if l.lease.None? || l.lease.value.id == id {
      AcquiredOutcome(l, id, q);
    } else {
      var l' := FailRelease(l, l.lease.value.id, "lease");
      FailFinished(l, l.lease.value.id, "lease");
      AcquiredOutcome(l', id, q);
    }
  }

  lemma {:induction false} ConcludeKeepsInv(l: Ledger, id: string, s: Script)
    requires Inv(l) && id in l.releases && l.releases[id].status == Building
    ensures Inv(Conclude(l, id, s).ledger)
  {
    var l0 := PutDatabase(l, id, DatabaseOf(l, id).(content := s.content));
    DatabaseKeepsInv(l, id, DatabaseOf(l, id).(content := s.content));
    if s.publication == Returns && s.published {
      var l1 := Put(l0, id, l0.releases[id].(status := Candidate));
      StatusKept(l0, id, l0.releases[id].(status := Candidate));
      if s.validation == Returns && s.valid && s.fingerprint == Returns {
        var r := l1.releases[id].(status := Validated, fingerprint := Some(s.content));
        FreedKeepsInv(l1, id);
        StatusKept(Freed(l1, id), id, r);
        var l2 := Put(Freed(l1, id), id, r);
        assert Advance(l1, id, Validated, Some(s.content)) == Some(l2);
        DatabaseKeepsInv(l2, id, DatabaseOf(l2, id).(staged := None));
      }
    }
  }

  ghost predicate OnlyMoves(l: Ledger, l': Ledger, id: string) {
    && id in l'.releases
    && forall o :: o != id ==>
         (o in l'.releases <==> o in l.releases) && (o in l.releases ==> l'.releases[o] == l.releases[o])
  }

  /** `b` is `a` with another status and fingerprint of one release. */
  ghost predicate Restated(a: Ledger, b: Ledger, id: string) {
    && OnlyMoves(a, b, id) && id in a.releases
    && b.releases[id].tasks == a.releases[id].tasks && b.releases[id].digest == a.releases[id].digest
  }

  lemma {:induction false} RestatedTwice(a: Ledger, b: Ledger, c: Ledger, id: string)
    requires Restated(a, b, id) && id in c.releases && c.releases == b.releases[id := c.releases[id]]
    requires c.releases[id].tasks == b.releases[id].tasks && c.releases[id].digest == b.releases[id].digest
    ensures Restated(a, c, id)
  {
  }

  lemma {:induction false} AdvanceRestates(a: Ledger, b: Ledger, id: string, to: Status, f: Option<map<string, string>>)
    requires Restated(a, b, id) && Advance(b, id, to, f).Some?
    ensures Restated(a, Advance(b, id, to, f).value, id)
  {
    var c := Advance(b, id, to, f).value;
    assert c.releases == b.releases[id := c.releases[id]];
    RestatedTwice(a, b, c, id);
  }

  /** The end of a build moves no other release, and no task. */
  lemma {:induction false} ConcludeFrame(l: Ledger, id: string, s: Script)
    requires id in l.releases
    ensures Restated(l, Conclude(l, id, s).ledger, id)
  {
    var l0 := PutDatabase(l, id, DatabaseOf(l, id).(content := s.content));
    assert Restated(l, l0, id);
    if s.publication == Returns && s.published && Advance(l0, id, Candidate, None).Some? {
      var l1 := Advance(l0, id, Candidate, None).value;
      AdvanceRestates(l, l0, id, Candidate, None);
      if Advance(l1, id, Validated, Some(s.content)).Some? { AdvanceRestates(l, l1, id, Validated, Some(s.content)); }
    }
  }

  /** The end of a build: validated exactly when nothing stops it. */
  lemma {:induction false} ConcludeOutcome(l: Ledger, id: string, s: Script)
    requires id in l.releases && l.releases[id].status == Building
    ensures var out := Conclude(l, id, s);
      && id in out.ledger.releases
      && (Finished(out.ledger.releases[id].status) <==> Passes(s))
      && (Finished(out.ledger.releases[id].status) ==> out.ledger.releases[id].fingerprint == Some(s.content))
      && out.ledger.releases[id].status != Active
      && (out.flow == Go ==> out.ledger.releases[id].status == Validated)
  {
  }

  lemma {:induction false} ResumeKeepsInv(l: Ledger, id: string)
    requires Inv(l) && id in l.releases
    ensures Inv(ResumeTasks(l, id))
  {
    HistoryKept(l, ResumeTasks(l, id), id);
  }

  lemma {:induction false} PlanKeepsInv(l: Ledger, id: string, q: Request, s: Script)
    requires Inv(l) && id in l.releases && q.digest == l.releases[id].digest
    ensures Inv(RunPlan(l, id, q, s).ledger)
  {
    PlanKeepsHistory(l, id, q, s);
    PlanKeepsRelease(l, id, q, s);
  }

  /** The passing attempt: everything the lifecycle asks for between opening and `validated`. */
  predicate Passes(s: Script) {
    s.publication == Returns && s.published && s.validation == Returns && s.valid && s.fingerprint == Returns
  }

  ghost predicate StepsDone(r: Release, q: Request, s: Script) {
    && IsCompleted(r.tasks, ARTIFACT)
    && forall k :: k in PlanKeys(q, s) ==> IsCompleted(r.tasks, TaskId(Ingest, k))
  }

  lemma {:induction false} ExecuteKeepsInv(l: Ledger, id: string, q: Request, s: Script)
    requires Inv(l) && id in l.releases && l.releases[id].status == Building && q.digest == l.releases[id].digest
    ensures Inv(Execute(l, id, q, s).0)
  {
    var l0 := ResumeTasks(l, id);
    ResumeKeepsInv(l, id);
    PlanKeepsInv(l0, id, q, s);
    PlanKeepsRelease(l0, id, q, s);
    var plan := RunPlan(l0, id, q, s);
    if plan.flow == Go {
      var out := Conclude(plan.ledger, id, s);
      ConcludeKeepsInv(plan.ledger, id, s);
      FailKeepsInv(out.ledger, id, out.stage);
    } else {
      FailKeepsInv(plan.ledger, id, plan.stage);
    }
  }

  lemma {:induction false} MovesTwice(a: Ledger, b: Ledger, c: Ledger, id: string)
    requires OnlyMoves(a, b, id) && OnlyMoves(b, c, id)
    ensures OnlyMoves(a, c, id)
  {
  }

  /** A plan that goes through has done every one of its steps; it moves no other release. */
  lemma {:induction false} PlanOutcome(l: Ledger, id: string, q: Request, s: Script)
    requires Inv(l) && id in l.releases && q.digest == l.releases[id].digest
    ensures var plan := RunPlan(ResumeTasks(l, id), id, q, s);
      && OnlyMoves(l, plan.ledger, id)
      && plan.ledger.releases[id].status == l.releases[id].status
      && (plan.flow == Go ==> StepsDone(plan.ledger.releases[id], q, s))
  {
    var l0 := ResumeTasks(l, id);
    ResumeKeepsInv(l, id);
    PlanKeepsHistory(l0, id, q, s);
    PlanKeepsRelease(l0, id, q, s);
    assert OnlyMoves(l, l0, id);
    MovesTwice(l, l0, RunPlan(l0, id, q, s).ledger, id);
  }

  /** From the end of a plan to the end of the build. */
  function Ending(plan: BuildOut, id: string, s: Script): BuildOut
    requires id in plan.ledger.releases
  {
    var out := if plan.flow != Go then plan else Conclude(plan.ledger, id, s);
    if out.flow == Throw then out.(ledger := FailRelease(out.ledger, id, out.stage)) else out
  }

  lemma {:induction false} EndingOutcome(l: Ledger, plan: BuildOut, id: string, q: Request, s: Script)
    requires OnlyMoves(l, plan.ledger, id) && plan.ledger.releases[id].status == Building
    requires plan.flow == Go ==> StepsDone(plan.ledger.releases[id], q, s)
    ensures var r := Ending(plan, id, s);
      && OnlyMoves(l, r.ledger, id)
      && (Finished(r.ledger.releases[id].status) ==>
            Passes(s) && StepsDone(r.ledger.releases[id], q, s) && r.ledger.releases[id].fingerprint == Some(s.content))
      && r.ledger.releases[id].status != Active
      && (r.flow == Go ==> r.ledger.releases[id].status == Validated)
  {
    if plan.flow == Go {
      var out := Conclude(plan.ledger, id, s);
      ConcludeOutcome(plan.ledger, id, s);
      ConcludeFrame(plan.ledger, id, s);
      FailOutcome(out.ledger, id, out.stage);
      MovesTwice(l, plan.ledger, out.ledger, id);
      MovesTwice(l, out.ledger, FailRelease(out.ledger, id, out.stage), id);
      SameTasksDone(plan.ledger.releases[id], out.ledger.releases[id], q, s);
    } else {
      FailOutcome(plan.ledger, id, plan.stage);
      MovesTwice(l, plan.ledger, FailRelease(plan.ledger, id, plan.stage), id);
    }
  }

  /** A build that finishes its release passed and has every step of its plan done; no other release moves. */
  lemma {:induction false} ExecuteOutcome(l: Ledger, id: string, q: Request, s: Script)
    requires Inv(l) && id in l.releases && l.releases[id].status == Building && q.digest == l.releases[id].digest
    ensures var (l', flow) := Execute(l, id, q, s);
      && id in l'.releases
      && OnlyMoves(l, l', id)
      && (Finished(l'.releases[id].status) ==>
            Passes(s) && StepsDone(l'.releases[id], q, s) && l'.releases[id].fingerprint == Some(s.content))
      && l'.releases[id].status != Active
      && (flow == Go ==> l'.releases[id].status == Validated)
  {
    PlanOutcome(l, id, q, s);
    EndingOutcome(l, RunPlan(ResumeTasks(l, id), id, q, s), id, q, s);
  }

  /** Up to the last advance the execution is held by the release; from there on it is free. */
  lemma {:induction false} ConcludeLease(l: Ledger, id: string, s: Script)
    requires id in l.releases && l.releases[id].status == Building && l.lease.Some? && l.lease.value.id == id
    ensures var out := Conclude(l, id, s);
      && id in out.ledger.releases
      && (if Executing(out.ledger.releases[id].status) then out.ledger.lease == l.lease
          else out.ledger.releases[id].status == Validated && out.ledger.lease.None?)
      && (out.flow == Go ==> DatabaseOf(out.ledger, id).staged.None? && DatabaseOf(out.ledger, id).content == s.content)
  {
    var l0 := PutDatabase(l, id, DatabaseOf(l, id).(content := s.content));
    if s.publication == Returns && s.published {
      assert Advance(l0, id, Candidate, None).Some?;
    }
  }

  /** A passing end of a build goes as its clean-up goes. */
  lemma {:induction false} ConcludeFlow(l: Ledger, id: string, s: Script)
    requires id in l.releases && l.releases[id].status == Building && Passes(s)
    ensures Conclude(l, id, s).flow == CallFlow(s.cleanup)
  {
    var l0 := PutDatabase(l, id, DatabaseOf(l, id).(content := s.content));
    var l1 := Put(l0, id, l0.releases[id].(status := Candidate));
    assert Advance(l0, id, Candidate, None) == Some(l1);
  }

  lemma {:induction false} EndingFrees(plan: BuildOut, id: string, s: Script)
    requires id in plan.ledger.releases && plan.ledger.releases[id].status == Building
    requires plan.ledger.lease.Some? && plan.ledger.lease.value.id == id
    ensures var r := Ending(plan, id, s);
      && id in r.ledger.releases
      && (r.flow != Die ==> r.ledger.lease.None?)
      && (r.flow == Throw ==> r.ledger.releases[id].status in {Failed, Validated})
      && (r.flow == Throw && r.ledger.releases[id].status == Validated <==>
            plan.flow == Go && Passes(s) && s.cleanup.CallThrows?)
      && (r.flow == Go ==> DatabaseOf(r.ledger, id).staged.None? && DatabaseOf(r.ledger, id).content == s.content)
  {
    if plan.flow == Go {
      var out := Conclude(plan.ledger, id, s);
      ConcludeLease(plan.ledger, id, s);
      ConcludeOutcome(plan.ledger, id, s);
      if Passes(s) { ConcludeFlow(plan.ledger, id, s); }
      FailOutcome(out.ledger, id, out.stage);
    }
  }

  /**
   * How an attempt leaves the execution: free, unless the process stopped. One that throws leaves its release
   * failed, or validated: the latter exactly when every gate passed and the clean-up of the staged files threw. One
   * that goes through leaves no staged files behind.
   */
  lemma {:induction false} AttemptFreesExecution(l: Ledger, id: string, q: Request, s: Script)
    requires id in l.releases && l.releases[id].status == Building && l.lease.Some? && l.lease.value.id == id
    ensures var (l', flow) := Execute(l, id, q, s);
      && id in l'.releases
      && (flow != Die ==> l'.lease.None?)
      && (flow == Throw ==> l'.releases[id].status in {Failed, Validated})
      && (flow == Throw && l'.releases[id].status == Validated <==>
            RunPlan(ResumeTasks(l, id), id, q, s).flow == Go && Passes(s) && s.cleanup.CallThrows?)
      && (flow == Go ==> DatabaseOf(l', id).staged.None? && DatabaseOf(l', id).content == s.content)
  {
    PlanKeepsRelease(ResumeTasks(l, id), id, q, s);
    EndingFrees(RunPlan(ResumeTasks(l, id), id, q, s), id, s);
  }

  lemma {:induction false} SameTasksDone(a: Release, b: Release, q: Request, s: Script)
    requires a.tasks == b.tasks && StepsDone(a, q, s)
    ensures StepsDone(b, q, s)
  {
  }

  lemma {:induction false} FailOutcome(l: Ledger, id: string, stage: string)
    requires id in l.releases
    ensures var l' := FailRelease(l, id, stage);
      && OnlyMoves(l, l', id)
      && (if Executing(l.releases[id].status) then l'.releases[id].status == Failed && l'.releases[id].failure == stage
          else l' == l)
  {
  }

  lemma {:induction false} BuildKeepsInv(l: Ledger, id: string, q: Request, s: Script)
    requires Inv(l)
    ensures Inv(Build(l, id, q, s).0)
  {
    BeginKeepsInv(l, id, q);
    BeginOutcome(l, id, q);
    if Begin(l, id, q).1 == Opened { ExecuteKeepsInv(Begin(l, id, q).0, id, q, s); }
  }

  lemma {:induction false} ActiveIs(l: Ledger, id: string)
    requires OneActive(l) && id in l.releases && l.releases[id].status == Active
    ensures ActiveOf(l) == Some(id)
  {
  }

  lemma {:induction false} RetireKeepsInv(l: Ledger)
    requires Inv(l)
    ensures var l' := RetireActive(l, ActiveOf(l));
      Inv(l') && forall o :: o in l'.releases ==> l'.releases[o].status != Active
  {
    if ActiveOf(l).Some? {
      var a := ActiveOf(l).value;
      StatusKept(l, a, l.releases[a].(status := Retired));
    }
  }

  lemma {:induction false} SwitchKeepsInv(l: Ledger, id: string, p: Promotion)
    requires Inv(l)
    ensures Inv(Switch(l, ActiveOf(l), id, p).0)
  {
    RetireKeepsInv(l);
    var l' := RetireActive(l, ActiveOf(l));
    if id in l.releases && l.releases[id].status != Active && Promotable(l.releases[id], p.production)
       && p.registry == Returns {
      var after := Put(l', id, l'.releases[id].(status := Active));
      HistoryKept(l', after, id);
    }
  }

  lemma {:induction false} AuditedKeepsInv(l: Ledger, id: string, e: AuditEntry)
    requires Inv(l)
    ensures Inv(Audited(l, id, e)) && ActiveOf(Audited(l, id, e)) == ActiveOf(l)
  {
    if id in l.releases {
      StatusKept(l, id, l.releases[id].(audit := l.releases[id].audit + [e]));
      var l' := Audited(l, id, e);
      if ActiveOf(l).Some? { ActiveIs(l', ActiveOf(l).value); }
    }
  }

  lemma {:induction false} PromoteKeepsInv(l: Ledger, id: string, p: Promotion)
    requires Inv(l)
    ensures Inv(Promote(l, id, p).0)
  {
    SwitchKeepsInv(l, id, p);
    var active := ActiveOf(l);
    if active.Some? {
      var e := EntryOf(active.value, id, p);
      AuditedKeepsInv(l, id, e);
      AuditedKeepsInv(Audited(l, id, e), active.value, e);
      SwitchKeepsInv(Audited(Audited(l, id, e), active.value, e), id, p);
    }
  }

  /** Every command, whatever throws or dies in it, keeps the invariant. */
  lemma {:induction false} ExecKeepsInv(l: Ledger, c: Command)
    requires Inv(l)
    ensures Inv(Exec(l, c))
  {
    match c
    case BuildRelease(id, q, s, promote, bootstrap, p) =>
      BuildKeepsInv(l, id, q, s);
      PromoteKeepsInv(Build(l, id, q, s).0, id, p);
    case PromoteRelease(id, p) => PromoteKeepsInv(l, id, p);
    case LiveEdit(id, content) =>
      var l' := Exec(l, c);
      forall e | e in l'.log ensures Explained(l', e) { assert Explained(l, e); }
    case Retire => RetireKeepsInv(l);
  }

  /**
   * Over every run from an empty ledger: no completed step runs again in its generation, every
   * artifact content a step read is the digest its release records, at most one release is active, and
   * the execution lease is held by a release that is building or a candidate.
   */
  lemma {:induction false} EveryRunKeepsInv(cs: seq<Command>)
    ensures Inv(Run(NEW_LEDGER, cs))
  {
    if cs != [] {
      EveryRunKeepsInv(cs[..|cs| - 1]);
      ExecKeepsInv(Run(NEW_LEDGER, cs[..|cs| - 1]), cs[|cs| - 1]);
    }
  }

  // ----- validation --------------------------------------------------------------------------

  /** The releases are the same, each with the tasks it had, finished if and only if it was. */
  ghost predicate SameWork(l: Ledger, l': Ledger) {
    && l'.releases.Keys == l.releases.Keys
    && forall o :: o in l.releases ==>
         l'.releases[o].tasks == l.releases[o].tasks
         && (Finished(l'.releases[o].status) <==> Finished(l.releases[o].status))
  }

  lemma {:induction false} StatusKeepsWork(l: Ledger, id: string, status: Status)
    requires id in l.releases && (Finished(status) <==> Finished(l.releases[id].status))
    ensures SameWork(l, Put(l, id, l.releases[id].(status := status)))
  {
  }

  lemma {:induction false} RetireKeepsWork(l: Ledger)
    ensures SameWork(l, RetireActive(l, ActiveOf(l)))
  {
    if ActiveOf(l).Some? { StatusKeepsWork(l, ActiveOf(l).value, Retired); }
  }

  lemma {:induction false} SwitchKeepsWork(l: Ledger, id: string, p: Promotion)
    ensures SameWork(l, Switch(l, ActiveOf(l), id, p).0)
  {
    var l' := RetireActive(l, ActiveOf(l));
    RetireKeepsWork(l);
    if id in l.releases && Promotable(l.releases[id], p.production) {
      StatusKeepsWork(l', id, Active);
      WorkTwice(l, l', Put(l', id, l'.releases[id].(status := Active)));
    }
  }

  lemma {:induction false} WorkTwice(a: Ledger, b: Ledger, c: Ledger)
    requires SameWork(a, b) && SameWork(b, c)
    ensures SameWork(a, c)
  {
  }

  lemma {:induction false} AuditKeepsWork(l: Ledger, id: string, e: AuditEntry)
    ensures SameWork(l, Audited(l, id, e))
  {
  }

  lemma {:induction false} PromoteKeepsWork(l: Ledger, id: string, p: Promotion)
    requires Inv(l)
    ensures SameWork(l, Promote(l, id, p).0)
  {
    var active := ActiveOf(l);
    SwitchKeepsWork(l, id, p);
    if active.Some? {
      var e := EntryOf(active.value, id, p);
      var l1 := Audited(l, id, e);
      var l2 := Audited(l1, active.value, e);
      AuditedKeepsInv(l, id, e);
      AuditedKeepsInv(l1, active.value, e);
      AuditKeepsWork(l, id, e);
      AuditKeepsWork(l1, active.value, e);
      WorkTwice(l, l1, l2);
      SwitchKeepsWork(l2, id, p);
      WorkTwice(l, l2, Switch(l2, active, id, p).0);
    }
  }

  /**
   * A release becomes finished in no other way than by a build of its own id whose publication is done
   * and whose validation passes, with every step of that build's plan complete.
   */
  lemma {:induction false} FinishedOnlyByPassing(l: Ledger, c: Command, id: string)
    requires Inv(l) && (id in l.releases ==> !Finished(l.releases[id].status))
    requires id in Exec(l, c).releases && Finished(Exec(l, c).releases[id].status)
    ensures c.BuildRelease? && c.id == id && Passes(c.s)
    ensures StepsDone(Exec(l, c).releases[id], c.q, c.s)
  {
    match c
    case BuildRelease(b, q, s, promote, bootstrap, p) =>
      BuildKeepsInv(l, b, q, s);
      PromoteKeepsWork(Build(l, b, q, s).0, b, p);
      BeginKeepsInv(l, b, q);
      BeginOutcome(l, b, q);
      if Begin(l, b, q).1 == Opened { ExecuteOutcome(Begin(l, b, q).0, b, q, s); }
    case PromoteRelease(b, p) => PromoteKeepsWork(l, b, p);
    case LiveEdit(b, content) =>
    case Retire =>
  }
}
