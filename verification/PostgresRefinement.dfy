/** The Postgres store refines the lease machine too, and every transaction keeps the job row
    and the run row in agreement. */
module PostgresRefinement {
  import opened Wrappers
  import opened LeaseMachine
  import opened PhaseOutcome
  import P = PostgresStore

  // ---- What every reachable pair of tables satisfies ----

  predicate JobRowOk(job: P.JobRow) {
    if job.state.Leased? then job.leaseId.Some? && job.leaseOwner.Some? && job.leaseExpiresAt.Some?
    else job.leaseId.None? && job.leaseOwner.None? && job.leaseExpiresAt.None?
  }

  /** The table check: a run is terminal exactly when it has an outcome. */
  predicate RunRowOk(run: P.RunRow) {
    IsTerminalPhase(run.phase) <==> run.outcome.Some?
  }

  /** A job and its run end together. */
  predicate Agree(job: P.JobRow, run: P.RunRow) {
    job.state.Terminal() <==> IsTerminalPhase(run.phase)
  }

  /** What holds whoever writes: both tables' own checks, and one run to a job. */
  ghost predicate RowsOk(db: P.Db) {
    (forall id :: id in db.runs ==> RunRowOk(db.runs[id])) &&
    (forall id :: id in db.jobs ==> JobRowOk(db.jobs[id]) && db.jobs[id].runId in db.runs) &&
    OneJobPerRun(db.jobs)
  }

  ghost predicate Agreed(db: P.Db) {
    forall id :: id in db.jobs ==> db.jobs[id].runId in db.runs && Agree(db.jobs[id], db.runs[db.jobs[id].runId])
  }

  /** The step keeps the tables' checks, and their agreement if they agreed. */
  ghost predicate Keeps(db: P.Db, next: P.Db) {
    RowsOk(next) && (Agreed(db) ==> Agreed(next))
  }

  ghost predicate OneJobPerRun(jobs: map<Id, P.JobRow>) {
    forall a, b :: a in jobs && b in jobs && jobs[a].runId == jobs[b].runId ==> a == b
  }

  // ---- The job a machine sees ----

  function Abs(cfg: P.Config, job: P.JobRow, run: P.RunRow): Cell {
    Cell(job.state, job.fencingToken,
         if job.state.Leased? && job.leaseId.Some? && job.leaseOwner.Some? && job.leaseExpiresAt.Some?
         then Some(Lease(job.leaseId.value, job.leaseOwner.value, job.leaseExpiresAt.value)) else None,
         job.attempt, P.MaxAttemptsFor(run.maxAttempts, cfg.maxAttempts), run.cancelRequested)
  }

  function AbsDb(cfg: P.Config, db: P.Db): Machine {
    map id | id in db.jobs && db.jobs[id].runId in db.runs :: Abs(cfg, db.jobs[id], db.runs[db.jobs[id].runId])
  }

  /** Changing one job row and its run row, together, changes that job's cell and no other. */
  lemma PairUpdate(cfg: P.Config, db: P.Db, id: Id, job: P.JobRow, run: P.RunRow)
    requires RowsOk(db) && id in db.jobs && job.runId == db.jobs[id].runId
    requires JobRowOk(job) && RunRowOk(run) && (Agreed(db) ==> Agree(job, run))
    ensures var next := db.(jobs := db.jobs[id := job], runs := db.runs[job.runId := run]);
            Keeps(db, next) && AbsDb(cfg, next) == AbsDb(cfg, db)[id := Abs(cfg, job, run)]
  {
    var next := db.(jobs := db.jobs[id := job], runs := db.runs[job.runId := run]);
    forall k | k in next.jobs && k != id
      ensures next.jobs[k].runId in next.runs && next.runs[next.jobs[k].runId] == db.runs[db.jobs[k].runId]
    {
      assert db.jobs[k].runId != db.jobs[id].runId;
    }
  }

  lemma OneOp(m: Machine, op: Op)
    ensures Exec(m, [op]) == Apply(m, op)
  {
  }

  // ---- Each transaction is a machine operation, or a refusal that changes nothing ----

  /** A claim of any candidate, the first in order or one behind rows that others hold. */
  lemma ClaimRefines(cfg: P.Config, db: P.Db, runnerId: Id, capabilities: set<Id>, labels: set<Id>, now: int, leaseId: Id, id: Id)
    requires RowsOk(db) && id in P.Candidates(cfg, db, runnerId, capabilities, labels, now)
    ensures id in db.jobs && db.jobs[id].runId in db.runs
    ensures var next := P.Claim(cfg, db, Some(id), runnerId, now, leaseId);
            var op := Grant(id, Lease(leaseId, runnerId, now + cfg.leaseDurationMs));
            Keeps(db, next) && Enabled(AbsDb(cfg, db), op) && AbsDb(cfg, next) == Apply(AbsDb(cfg, db), op) &&
            next.jobs[id].fencingToken == db.jobs[id].fencingToken + 1
  {
    GrantRefines(cfg, db, id, runnerId, now, leaseId);
  }

  lemma GrantRefines(cfg: P.Config, db: P.Db, id: Id, runnerId: Id, now: int, leaseId: Id)
    requires RowsOk(db) && id in db.jobs && db.jobs[id].state.Waiting() && !db.runs[db.jobs[id].runId].cancelRequested
    ensures var next := P.Claim(cfg, db, Some(id), runnerId, now, leaseId);
            var op := Grant(id, Lease(leaseId, runnerId, now + cfg.leaseDurationMs));
            Keeps(db, next) && Enabled(AbsDb(cfg, db), op) && AbsDb(cfg, next) == Apply(AbsDb(cfg, db), op)
  {
    var job := db.jobs[id];
    GrantPair(cfg, job, db.runs[job.runId], id, runnerId, now, leaseId);
    PairUpdate(cfg, db, id, P.GrantRow(cfg, job, runnerId, now, leaseId), P.AssignRun(db.runs[job.runId], id, runnerId, now));
  }

  lemma GrantPair(cfg: P.Config, job: P.JobRow, run: P.RunRow, id: Id, runnerId: Id, now: int, leaseId: Id)
    ensures var after, afterRun := P.GrantRow(cfg, job, runnerId, now, leaseId), P.AssignRun(run, id, runnerId, now);
            JobRowOk(after) && RunRowOk(afterRun) && Agree(after, afterRun) && after.runId == job.runId &&
            Abs(cfg, after, afterRun) ==
            NextCell(Abs(cfg, job, run), Grant(id, Lease(leaseId, runnerId, now + cfg.leaseDurationMs)))
  {
  }

  lemma UnderLeaseMeansHolds(cfg: P.Config, db: P.Db, id: Id, leaseId: Id, token: int, now: int)
    requires RowsOk(db)
    ensures P.UnderLease(db, id, leaseId, token, now) <==> id in db.jobs && Holds(AbsDb(cfg, db)[id], leaseId, token, now)
  {
  }

  /** A renewal is refused when the machine refuses it, and also when the new expiry is not in
      the future. */
  lemma RenewRefines(cfg: P.Config, db: P.Db, id: Id, leaseId: Id, token: int, expiresAt: int, now: int)
    requires RowsOk(db)
    ensures var r, op := P.Renew(db, id, leaseId, token, expiresAt, now), Op.Renew(id, leaseId, token, now, expiresAt);
            Keeps(db, r.0) && r.1 == (Enabled(AbsDb(cfg, db), op) && expiresAt > now) &&
            AbsDb(cfg, r.0) == if r.1 then Apply(AbsDb(cfg, db), op) else AbsDb(cfg, db)
  {
    UnderLeaseMeansHolds(cfg, db, id, leaseId, token, now);
    if P.UnderLease(db, id, leaseId, token, now) {
      var job := db.jobs[id];
      PairUpdate(cfg, db, id, job.(leaseExpiresAt := Some(expiresAt)), db.runs[job.runId]);
      assert db.runs[job.runId := db.runs[job.runId]] == db.runs;
    }
  }

  lemma ReleaseRefines(cfg: P.Config, db: P.Db, id: Id, leaseId: Id, token: int, availableAt: int, now: int)
    requires RowsOk(db)
    ensures var r, op := P.Release(db, id, leaseId, token, availableAt, now), Op.Release(id, leaseId, token, now);
            Keeps(db, r.0) && r.1 == Enabled(AbsDb(cfg, db), op) && AbsDb(cfg, r.0) == Apply(AbsDb(cfg, db), op)
  {
    UnderLeaseMeansHolds(cfg, db, id, leaseId, token, now);
    if P.UnderLease(db, id, leaseId, token, now) {
      var job := db.jobs[id];
      PairUpdate(cfg, db, id, P.FreeRow(job.(state := Queued, availableAt := availableAt)), P.ReleaseRun(db.runs[job.runId]));
    }
  }

  lemma CompleteRefines(cfg: P.Config, db: P.Db, id: Id, leaseId: Id, token: int, status: JobResult, error: Option<string>, now: int)
    requires RowsOk(db) && !status.JobRequeue?
    ensures var r := P.Complete(db, id, leaseId, token, status, error, now);
            var op := Op.Complete(id, leaseId, token, now, TerminalJobState(status));
            Keeps(db, r.0) && r.1 == Enabled(AbsDb(cfg, db), op) && AbsDb(cfg, r.0) == Apply(AbsDb(cfg, db), op)
  {
    UnderLeaseMeansHolds(cfg, db, id, leaseId, token, now);
    if P.UnderLease(db, id, leaseId, token, now) {
      FinishRefines(cfg, db, id, leaseId, token, status, error, now);
    }
  }

  lemma FinishRefines(cfg: P.Config, db: P.Db, id: Id, leaseId: Id, token: int, status: JobResult, error: Option<string>, now: int)
    requires RowsOk(db) && !status.JobRequeue? && P.UnderLease(db, id, leaseId, token, now)
    ensures var r := P.Complete(db, id, leaseId, token, status, error, now);
            var op := Op.Complete(id, leaseId, token, now, TerminalJobState(status));
            Keeps(db, r.0) && r.1 && AbsDb(cfg, r.0) == Apply(AbsDb(cfg, db), op)
  {
    UnderLeaseMeansHolds(cfg, db, id, leaseId, token, now);
    var job := db.jobs[id];
    FinishPair(cfg, job, db.runs[job.runId], status, error, now);
    PairUpdate(cfg, db, id, P.FreeRow(job.(state := TerminalJobState(status), errorCode := error)),
               P.FinishRun(db.runs[job.runId], status, error, now));
  }

  lemma FinishPair(cfg: P.Config, job: P.JobRow, run: P.RunRow, status: JobResult, error: Option<string>, now: int)
    requires !status.JobRequeue?
    ensures var after := P.FreeRow(job.(state := TerminalJobState(status), errorCode := error));
            var afterRun := P.FinishRun(run, status, error, now);
            JobRowOk(after) && RunRowOk(afterRun) && Agree(after, afterRun) &&
            Abs(cfg, after, afterRun) == Abs(cfg, job, run).(state := TerminalJobState(status), lease := None)
  {
  }

  /** One expired lease's recovery is the machine's, and leaves the run in the plan's phase. */
  lemma RecoverRefines(cfg: P.Config, db: P.Db, id: Id, now: int)
    requires RowsOk(db) && id in db.jobs && P.Expired(db, id, now)
    ensures var next := P.RecoverLease(cfg, db, id, now);
            Keeps(db, next) && AbsDb(cfg, next) == Apply(AbsDb(cfg, db), Recover(id, now)) &&
            Enabled(AbsDb(cfg, db), Recover(id, now))
  {
    hide Keeps;
    hide Agreed;
    hide OneJobPerRun;
    var job, plan := db.jobs[id], P.PlanFor(cfg, db, id);
    RecoverPair(cfg, job, db.runs[job.runId], now);
    PairUpdate(cfg, db, id, P.RecoverRow(cfg, job, plan, now), P.RecoverRun(db.runs[job.runId], plan, now));
  }

  lemma RecoverPair(cfg: P.Config, job: P.JobRow, run: P.RunRow, now: int)
    requires JobRowOk(job) && job.state.Leased? && job.leaseExpiresAt.value <= now
    ensures var plan := P.PlanRecovery(run.cancelRequested, job.attempt, P.MaxAttemptsFor(run.maxAttempts, cfg.maxAttempts));
            var after, afterRun := P.RecoverRow(cfg, job, plan, now), P.RecoverRun(run, plan, now);
            JobRowOk(after) && RunRowOk(afterRun) && Agree(after, afterRun) &&
            Lapsed(Abs(cfg, job, run), now) && Abs(cfg, after, afterRun) == Recovered(Abs(cfg, job, run))
  {
  }

  lemma NotExpiredRefuses(cfg: P.Config, db: P.Db, id: Id, now: int)
    requires RowsOk(db) && !P.Expired(db, id, now)
    ensures Apply(AbsDb(cfg, db), Recover(id, now)) == AbsDb(cfg, db)
  {
  }

  /** The reaping transaction, whatever order the query returns the rows in. */
  lemma {:induction false} ReapRefines(cfg: P.Config, db: P.Db, ids: seq<Id>, now: int)
    requires RowsOk(db)
    ensures Keeps(db, P.Reap(cfg, db, ids, now))
    ensures AbsDb(cfg, P.Reap(cfg, db, ids, now)) == Exec(AbsDb(cfg, db), RecoverAll(ids, now))
  {
    hide *;
    if ids == [] {
      ReapNone(cfg, db, now);
      ExecNone(AbsDb(cfg, db));
    } else {
      var front, id := ids[..|ids| - 1], ids[|ids| - 1];
      assert ids == front + [id];
      ReapRefines(cfg, db, front, now);
      KeepsMeans(db, P.Reap(cfg, db, front, now));
      ReapOneMore(cfg, db, front, id, now);
      ExecOneMore(AbsDb(cfg, db), RecoverAll(front, now), Recover(id, now));
      KeepsChains(db, P.Reap(cfg, db, front, now), P.Reap(cfg, db, ids, now));
    }
  }

  lemma ReapNone(cfg: P.Config, db: P.Db, now: int)
    requires RowsOk(db)
    ensures P.Reap(cfg, db, [], now) == db && RecoverAll([], now) == [] && Keeps(db, db)
  {
  }

  lemma KeepsMeans(db: P.Db, next: P.Db)
    requires Keeps(db, next)
    ensures RowsOk(next)
  {
  }

  lemma KeepsChains(a: P.Db, b: P.Db, c: P.Db)
    requires Keeps(a, b) && Keeps(b, c)
    ensures Keeps(a, c)
  {
  }

  lemma ReapOneMore(cfg: P.Config, db: P.Db, front: seq<Id>, id: Id, now: int)
    requires RowsOk(P.Reap(cfg, db, front, now))
    ensures var before, next := P.Reap(cfg, db, front, now), P.Reap(cfg, db, front + [id], now);
            Keeps(before, next) && AbsDb(cfg, next) == Apply(AbsDb(cfg, before), Recover(id, now))
    ensures RecoverAll(front + [id], now) == RecoverAll(front, now) + [Recover(id, now)]
  {
    assert (front + [id])[..|front|] == front;
    var before := P.Reap(cfg, db, front, now);
    if P.Expired(before, id, now) {
      RecoverRefines(cfg, before, id, now);
    } else {
      NotExpiredRefuses(cfg, before, id, now);
    }
  }

  /** A reap visiting every job leaves no lapsed lease, in any order. */
  lemma ReapIsComplete(cfg: P.Config, db: P.Db, ids: seq<Id>, now: int, id: Id)
    requires RowsOk(db) && id in ids && id in db.jobs
    ensures !P.Expired(P.Reap(cfg, db, ids, now), id, now)
  {
  }

  lemma CreateRefines(cfg: P.Config, db: P.Db, runId: Id, run: P.RunRow, jobId: Id, job: P.JobRow)
    requires RowsOk(db) && P.IsNewRun(db, runId, run, jobId, job)
    ensures Keeps(db, P.Create(db, runId, run, jobId, job))
    ensures AbsDb(cfg, P.Create(db, runId, run, jobId, job)) ==
            Apply(AbsDb(cfg, db), Submit(jobId, job.attempt, P.MaxAttemptsFor(run.maxAttempts, cfg.maxAttempts)))
  {
    CreateKeeps(db, runId, run, jobId, job);
    CreateSubmits(cfg, db, runId, run, jobId, job);
  }

  lemma CreateKeeps(db: P.Db, runId: Id, run: P.RunRow, jobId: Id, job: P.JobRow)
    requires RowsOk(db) && P.IsNewRun(db, runId, run, jobId, job)
    ensures Keeps(db, P.Create(db, runId, run, jobId, job))
  {
  }

  lemma CreateSubmits(cfg: P.Config, db: P.Db, runId: Id, run: P.RunRow, jobId: Id, job: P.JobRow)
    requires RowsOk(db) && P.IsNewRun(db, runId, run, jobId, job)
    ensures AbsDb(cfg, P.Create(db, runId, run, jobId, job)) ==
            Apply(AbsDb(cfg, db), Submit(jobId, job.attempt, P.MaxAttemptsFor(run.maxAttempts, cfg.maxAttempts)))
  {
    var next := P.Create(db, runId, run, jobId, job);
    CreateAdds(cfg, db, runId, run, jobId, job);
    assert Abs(cfg, job, run) == Cell(Queued, 0, None, job.attempt, P.MaxAttemptsFor(run.maxAttempts, cfg.maxAttempts), false);
  }

  lemma CreateAdds(cfg: P.Config, db: P.Db, runId: Id, run: P.RunRow, jobId: Id, job: P.JobRow)
    requires RowsOk(db) && P.IsNewRun(db, runId, run, jobId, job)
    ensures AbsDb(cfg, P.Create(db, runId, run, jobId, job)) == AbsDb(cfg, db)[jobId := Abs(cfg, job, run)]
    ensures jobId !in AbsDb(cfg, db)
  {
    hide OneJobPerRun;
    hide Abs;
    var next := P.Create(db, runId, run, jobId, job);
    forall id | id in db.jobs
      ensures id in next.jobs && next.jobs[id] == db.jobs[id] && db.jobs[id].runId in next.runs &&
              next.runs[db.jobs[id].runId] == db.runs[db.jobs[id].runId]
    {
    }
  }

  /** Cancelling a live run revokes its one job, leased or not; a job that has ended is only marked. */
  function CancelOp(job: P.JobRow, id: Id): Op {
    if job.state.Terminal() then RequestCancel(id) else Revoke(id)
  }

  lemma CancelRefines(cfg: P.Config, db: P.Db, runId: Id, now: int, id: Id)
    requires RowsOk(db) && id in db.jobs && db.jobs[id].runId == runId && !IsTerminalPhase(db.runs[runId].phase)
    ensures Keeps(db, P.CancelRun(db, runId, now))
    ensures AbsDb(cfg, P.CancelRun(db, runId, now)) == Apply(AbsDb(cfg, db), CancelOp(db.jobs[id], id))
  {
    hide Keeps;
    hide OneJobPerRun;
    var job := if db.jobs[id].state.Terminal() then db.jobs[id] else P.FreeRow(db.jobs[id].(state := Cancelled));
    var run := P.CancelledRun(db.runs[runId], now);
    CancelIsOnePair(db, runId, now, id, job);
    CancelPair(cfg, db.jobs[id], db.runs[runId], now, id);
    AgreedMeans(db, id);
    PairUpdate(cfg, db, id, job, run);
  }

  lemma AgreedMeans(db: P.Db, id: Id)
    requires RowsOk(db) && id in db.jobs
    ensures Agreed(db) ==> Agree(db.jobs[id], db.runs[db.jobs[id].runId])
  {
  }

  lemma CancelPair(cfg: P.Config, job: P.JobRow, run: P.RunRow, now: int, id: Id)
    requires JobRowOk(job)
    ensures var after := if job.state.Terminal() then job else P.FreeRow(job.(state := Cancelled));
            var afterRun := P.CancelledRun(run, now);
            JobRowOk(after) && RunRowOk(afterRun) && Agree(after, afterRun) && after.runId == job.runId &&
            Abs(cfg, after, afterRun) == NextCell(Abs(cfg, job, run), CancelOp(job, id))
  {
  }

  lemma CancelIsOnePair(db: P.Db, runId: Id, now: int, id: Id, job: P.JobRow)
    requires RowsOk(db) && id in db.jobs && db.jobs[id].runId == runId && !IsTerminalPhase(db.runs[runId].phase)
    requires job == if db.jobs[id].state.Terminal() then db.jobs[id] else P.FreeRow(db.jobs[id].(state := Cancelled))
    ensures P.CancelRun(db, runId, now) ==
            db.(jobs := db.jobs[id := job], runs := db.runs[runId := P.CancelledRun(db.runs[runId], now)])
  {
    assert P.CancelRun(db, runId, now).jobs == db.jobs[id := job];
  }

  /** Cancelling a run that has ended, or that has no job, leaves every job as it was. */
  lemma CancelOfNoJob(cfg: P.Config, db: P.Db, runId: Id, now: int)
    requires RowsOk(db)
    requires (runId in db.runs ==> IsTerminalPhase(db.runs[runId].phase)) || forall id :: id in db.jobs ==> db.jobs[id].runId != runId
    ensures Keeps(db, P.CancelRun(db, runId, now)) && AbsDb(cfg, P.CancelRun(db, runId, now)) == AbsDb(cfg, db)
  {
    assert P.CancelRun(db, runId, now).jobs == db.jobs;
  }

  // ---- Event batches ----

  lemma {:induction false} LastAskedIsDerived(events: seq<Option<P.Asked>>)
    ensures var asked := P.LastAsked(events);
            asked.Some? ==> (asked.value.terminal <==> IsTerminalPhase(asked.value.phase)) &&
                            (asked.value.terminal <==> asked.value.outcome.Some?)
  {
    if events != [] {
      LastAskedIsDerived(events[..|events| - 1]);
    }
  }

  /** An event batch moves no job, and keeps the run's phase terminal exactly when it has an outcome. */
  lemma EventsRefine(cfg: P.Config, db: P.Db, id: Id, leaseId: Id, token: int, events: seq<Option<P.Asked>>, now: int)
    requires RowsOk(db)
    ensures var next := P.ApplyEvents(db, id, leaseId, token, events, now).0;
            RowsOk(next) && next.jobs == db.jobs && AbsDb(cfg, next) == AbsDb(cfg, db)
  {
    LastAskedIsDerived(events);
  }

  /** The batch asks for a phase that ends the run. */
  predicate AsksToEnd(events: seq<Option<P.Asked>>) {
    var asked := P.LastAsked(events);
    asked.Some? && IsTerminalPhase(asked.value.phase)
  }

  /** An accepted batch leaves job and run in agreement exactly when it does not ask the run to end:
      its job is leased, and stays so. */
  lemma EventsKeepAgreementExactlyWhen(db: P.Db, id: Id, leaseId: Id, token: int, events: seq<Option<P.Asked>>, now: int)
    requires RowsOk(db) && Agreed(db) && P.ApplyEvents(db, id, leaseId, token, events, now).1
    ensures Agreed(P.ApplyEvents(db, id, leaseId, token, events, now).0) <==> !AsksToEnd(events)
  {
    var next := P.ApplyEvents(db, id, leaseId, token, events, now).0;
    LastAskedIsDerived(events);
    assert Agree(db.jobs[id], db.runs[db.jobs[id].runId]);
    assert id in next.jobs && next.jobs[id] == db.jobs[id];
  }

  /** So a single event naming a terminal phase leaves an ended run with a leased job. */
  lemma EventEndsRunUnderLease(job: P.JobRow, run: P.RunRow, leaseId: Id, now: int)
    requires job.state.Leased? && job.leaseId == Some(leaseId) && job.leaseOwner.Some? && job.leaseExpiresAt.Some?
    requires run.phase == PhRunning && run.outcome == None
    ensures var db := P.Db(map[0 := job], map[job.runId := run], map[]);
            var next := P.ApplyEvents(db, 0, leaseId, job.fencingToken, [Some(P.Asked(PhComplete, Some(OutPassed)))], now).0;
            RowsOk(db) && Agreed(db) && RowsOk(next) && !Agreed(next) &&
            next.jobs[0].state.Leased? && next.runs[job.runId].phase == PhComplete
  {
    var db := P.Db(map[0 := job], map[job.runId := run], map[]);
    var events := [Some(P.Asked(PhComplete, Some(OutPassed)))];
    assert P.LastAsked(events) == Some(DeriveRunState(PhComplete, Some(OutPassed)));
    EventsKeepAgreementExactlyWhen(db, 0, leaseId, job.fencingToken, events, now);
  }

  // ---- A job that has ended, with its run ----

  ghost predicate EndedPair(db: P.Db, id: Id) {
    id in db.jobs && db.jobs[id].state.Terminal() && db.jobs[id].runId in db.runs &&
    IsTerminalPhase(db.runs[db.jobs[id].runId].phase)
  }

  /** Another job's pair of rows can change without touching this one's. */
  lemma OtherPair(db: P.Db, next: P.Db, id: Id, other: Id, job: P.JobRow, run: P.RunRow)
    requires RowsOk(db) && EndedPair(db, id) && other in db.jobs && other != id && job.runId == db.jobs[other].runId
    requires next.jobs == db.jobs[other := job] && next.runs == db.runs[job.runId := run]
    ensures EndedPair(next, id) && next.jobs[id] == db.jobs[id]
  {
    assert db.jobs[other].runId != db.jobs[id].runId;
  }

  lemma {:induction false} ReapKeepsEnded(cfg: P.Config, db: P.Db, ids: seq<Id>, now: int, id: Id)
    requires RowsOk(db) && EndedPair(db, id)
    ensures EndedPair(P.Reap(cfg, db, ids, now), id) && P.Reap(cfg, db, ids, now).jobs[id] == db.jobs[id]
  {
    if ids != [] {
      var front, other := ids[..|ids| - 1], ids[|ids| - 1];
      ReapKeepsEnded(cfg, db, front, now, id);
      ReapRefines(cfg, db, front, now);
      var before := P.Reap(cfg, db, front, now);
      if P.Expired(before, other, now) {
        RecoveryKeepsEnded(cfg, before, other, now, id);
      }
    }
  }

  lemma RecoveryKeepsEnded(cfg: P.Config, db: P.Db, other: Id, now: int, id: Id)
    requires RowsOk(db) && EndedPair(db, id) && P.Expired(db, other, now)
    ensures var next := P.RecoverLease(cfg, db, other, now); EndedPair(next, id) && next.jobs[id] == db.jobs[id]
  {
    var job, plan := db.jobs[other], P.PlanFor(cfg, db, other);
    OtherPair(db, P.RecoverLease(cfg, db, other, now), id, other, P.RecoverRow(cfg, job, plan, now),
              P.RecoverRun(db.runs[job.runId], plan, now));
  }
}
