/** What each transaction of the Postgres store writes, row by row and column by column, which jobs
    a claim may take, and how long a job that was put back is left alone. */
module PostgresRows {
  import opened Wrappers
  import opened LeaseMachine
  import opened PhaseOutcome
  import opened PostgresRefinement
  import opened PostgresRuns
  import P = PostgresStore

  // ---- What a claim may take ----

  /** The runner is healthy, its token neither revoked nor expired, and it has a slot free. */
  ghost predicate HasFreeSlot(db: P.Db, runnerId: Id, now: int) {
    runnerId in db.runners && db.runners[runnerId].healthy && !db.runners[runnerId].tokenRevoked &&
    (db.runners[runnerId].tokenExpiresAt.Some? ==> now < db.runners[runnerId].tokenExpiresAt.value) &&
    |set id | id in db.jobs && db.jobs[id].state == Leased && db.jobs[id].leaseOwner == Some(runnerId)| < db.runners[runnerId].slots
  }

  /** The job waits in the runner's workspace, its time has come, nobody asked to cancel its run, all
      it asks for is the runner's or the call's, and both quotas leave room. */
  ghost predicate MayTake(cfg: P.Config, db: P.Db, id: Id, runnerId: Id, capabilities: set<Id>, labels: set<Id>, now: int)
    requires runnerId in db.runners
  {
    id in db.jobs && db.jobs[id].runId in db.runs &&
    var job, run, runner := db.jobs[id], db.runs[db.jobs[id].runId], db.runners[runnerId];
    (job.state == Queued || job.state == Requeued) && job.workspaceId == runner.workspaceId && job.availableAt <= now &&
    !run.cancelRequested &&
    (forall c :: c in job.requiredCapabilities ==> c in runner.capabilities || c in capabilities) &&
    (forall l :: l in job.labels ==> l in runner.labels || l in labels) &&
    |set x | x in db.jobs && db.jobs[x].state == Leased && db.jobs[x].workspaceId == job.workspaceId| < cfg.workspaceQuota &&
    (run.projectId != None ==>
       |set x | x in db.jobs && db.jobs[x].runId in db.runs && db.jobs[x].state == Leased &&
                db.runs[db.jobs[x].runId].projectId == run.projectId| < cfg.projectQuota)
  }

  lemma CandidatesAre(cfg: P.Config, db: P.Db, runnerId: Id, capabilities: set<Id>, labels: set<Id>, now: int, id: Id)
    ensures id in P.Candidates(cfg, db, runnerId, capabilities, labels, now) <==>
            HasFreeSlot(db, runnerId, now) && MayTake(cfg, db, id, runnerId, capabilities, labels, now)
  {
    assert P.HeldBy(db, runnerId) == set x | x in db.jobs && db.jobs[x].state == Leased && db.jobs[x].leaseOwner == Some(runnerId);
    if runnerId in db.runners && id in db.jobs && db.jobs[id].runId in db.runs {
      CandidateFits(cfg, db, id, runnerId, capabilities, labels, now);
    }
  }

  lemma CandidateFits(cfg: P.Config, db: P.Db, id: Id, runnerId: Id, capabilities: set<Id>, labels: set<Id>, now: int)
    requires runnerId in db.runners && id in db.jobs && db.jobs[id].runId in db.runs
    ensures P.IsCandidate(cfg, db, id, db.runners[runnerId], capabilities, labels, now) <==>
            MayTake(cfg, db, id, runnerId, capabilities, labels, now)
  {
    var job, run := db.jobs[id], db.runs[db.jobs[id].runId];
    assert P.WorkspaceActive(db, job.workspaceId) ==
           set x | x in db.jobs && db.jobs[x].state == Leased && db.jobs[x].workspaceId == job.workspaceId;
    if run.projectId.Some? {
      assert P.ProjectActive(db, run.projectId.value) ==
             set x | x in db.jobs && db.jobs[x].runId in db.runs && db.jobs[x].state == Leased &&
                     db.runs[db.jobs[x].runId].projectId == run.projectId;
    }
  }

  /** `a` goes before `b`: more priority with one more for each full period of a second or more that
      it has waited, then older, then the smaller id. */
  ghost predicate GoesBefore(cfg: P.Config, db: P.Db, a: Id, b: Id, now: int)
    requires a in db.jobs && b in db.jobs
  {
    var p := if cfg.starvationAfterMs < 1000 then 1000 else cfg.starvationAfterMs;
    var ja, jb := db.jobs[a], db.jobs[b];
    var lead := ja.priority + Waited(ja, now) / p - (jb.priority + Waited(jb, now) / p);
    lead > 0 || (lead == 0 && (ja.createdAt < jb.createdAt || (ja.createdAt == jb.createdAt && a < b)))
  }

  ghost function Waited(job: P.JobRow, now: int): nat {
    if now < job.createdAt then 0 else now - job.createdAt
  }

  /** A claim is refused exactly when the runner has no slot free or every job that fits it is held by
      another transaction; otherwise it takes the one that goes before all others not held. */
  lemma ClaimTakes(cfg: P.Config, db: P.Db, t: Txn)
    requires t.ClaimTxn?
    ensures (Claimed(cfg, db, t).None? <==>
             !HasFreeSlot(db, t.runnerId, t.now) ||
             forall id :: MayTake(cfg, db, id, t.runnerId, t.capabilities, t.labels, t.now) ==> id in t.locked)
    ensures Claimed(cfg, db, t).Some? ==>
              var k := Claimed(cfg, db, t).value;
              HasFreeSlot(db, t.runnerId, t.now) && MayTake(cfg, db, k, t.runnerId, t.capabilities, t.labels, t.now) && k !in t.locked &&
              k in db.jobs &&
              forall j :: j !in t.locked && j != k && MayTake(cfg, db, j, t.runnerId, t.capabilities, t.labels, t.now) ==>
                j in db.jobs && GoesBefore(cfg, db, k, j, t.now)
  {
    var candidates := P.Candidates(cfg, db, t.runnerId, t.capabilities, t.labels, t.now);
    hide P.Candidates;
    hide MayTake;
    hide HasFreeSlot;
    forall id
      ensures id in candidates <==>
              HasFreeSlot(db, t.runnerId, t.now) && MayTake(cfg, db, id, t.runnerId, t.capabilities, t.labels, t.now)
    {
      CandidatesAre(cfg, db, t.runnerId, t.capabilities, t.labels, t.now, id);
    }
    SlotHolderIsKnown(db, t.runnerId, t.now);
    var pick := Claimed(cfg, db, t);
    if pick.Some? {
      forall j | j in candidates && j !in t.locked && j != pick.value
        ensures j in db.jobs && GoesBefore(cfg, db, pick.value, j, t.now)
      {
        BeforeGoesBefore(cfg, db, pick.value, j, t.now);
      }
    }
  }

  lemma BeforeGoesBefore(cfg: P.Config, db: P.Db, a: Id, b: Id, now: int)
    requires a in db.jobs && b in db.jobs
    ensures P.Before(cfg, db, a, b, now) <==> GoesBefore(cfg, db, a, b, now)
  {
    assert Waited(db.jobs[a], now) == Max(0, now - db.jobs[a].createdAt) && Waited(db.jobs[b], now) == Max(0, now - db.jobs[b].createdAt);
    assert Max(1000, cfg.starvationAfterMs) == if cfg.starvationAfterMs < 1000 then 1000 else cfg.starvationAfterMs;
  }

  lemma SlotHolderIsKnown(db: P.Db, runnerId: Id, now: int)
    ensures HasFreeSlot(db, runnerId, now) ==> runnerId in db.runners
  {
  }

  // ---- What each transaction writes ----

  /** The transaction changes one job row and its run's row, and no other. */
  ghost predicate WritesOnly(db: P.Db, next: P.Db, id: Id) {
    id in db.jobs && id in next.jobs && next.jobs[id].runId == db.jobs[id].runId && db.jobs[id].runId in next.runs &&
    next == db.(jobs := db.jobs[id := next.jobs[id]],
                runs := db.runs[db.jobs[id].runId := next.runs[db.jobs[id].runId]])
  }

  /** What no transaction changes of a job's row. */
  ghost predicate SameOrder(was: P.JobRow, job: P.JobRow) {
    job.runId == was.runId && job.workspaceId == was.workspaceId && job.priority == was.priority &&
    job.requiredCapabilities == was.requiredCapabilities && job.labels == was.labels && job.createdAt == was.createdAt
  }

  /** Nor of a run's. */
  ghost predicate SameRun(was: P.RunRow, run: P.RunRow) {
    run.projectId == was.projectId && run.maxAttempts == was.maxAttempts
  }

  ghost predicate IsUnleased(job: P.JobRow) {
    job.leaseId == None && job.leaseOwner == None && job.leaseExpiresAt == None
  }

  /** A claim leases its job to the runner under the next token and gives the runner the run. */
  lemma ClaimedRowsAre(cfg: P.Config, db: P.Db, id: Id, runnerId: Id, now: int, leaseId: Id)
    requires id in db.jobs && db.jobs[id].runId in db.runs
    ensures var next := P.Claim(cfg, db, Some(id), runnerId, now, leaseId);
            WritesOnly(db, next, id) &&
            var was, job, ran, run := db.jobs[id], next.jobs[id], db.runs[db.jobs[id].runId], next.runs[db.jobs[id].runId];
            SameOrder(was, job) && job.state == Leased && job.leaseId == Some(leaseId) && job.leaseOwner == Some(runnerId) &&
            job.leaseExpiresAt == Some(now + cfg.leaseDurationMs) && job.fencingToken == was.fencingToken + 1 &&
            job.errorCode == None && job.attempt == was.attempt && job.availableAt == was.availableAt &&
            SameRun(ran, run) && run.phase == PhAssigned && run.outcome == None && run.status == StRunning &&
            run.runnerId == Some(runnerId) && run.currentJobId == Some(id) && run.attempt == ran.attempt &&
            run.cancelRequested == ran.cancelRequested && run.completedAt == ran.completedAt && run.errorCode == ran.errorCode &&
            (if ran.startedAt.Some? then run.startedAt == ran.startedAt else run.startedAt == Some(now))
  {
  }

  /** The caller's lease is the one the row is under, and has time left. */
  ghost predicate HoldsLease(db: P.Db, id: Id, leaseId: Id, token: int, now: int) {
    id in db.jobs && db.jobs[id].state == Leased && db.jobs[id].leaseId == Some(leaseId) && db.jobs[id].fencingToken == token &&
    db.jobs[id].leaseExpiresAt.Some? && now < db.jobs[id].leaseExpiresAt.value
  }

  lemma RenewedRowIs(db: P.Db, id: Id, leaseId: Id, token: int, expiresAt: int, now: int)
    ensures var (next, ok) := P.Renew(db, id, leaseId, token, expiresAt, now);
            (ok <==> HoldsLease(db, id, leaseId, token, now) && now < expiresAt) && (!ok ==> next == db) &&
            (ok ==> id in next.jobs && next == db.(jobs := db.jobs[id := next.jobs[id]]) &&
                    next.jobs[id] == db.jobs[id].(leaseExpiresAt := Some(expiresAt)))
  {
  }

  lemma ReleasedRowsAre(db: P.Db, id: Id, leaseId: Id, token: int, availableAt: int, now: int)
    requires RowsOk(db)
    ensures var (next, ok) := P.Release(db, id, leaseId, token, availableAt, now);
            (ok <==> HoldsLease(db, id, leaseId, token, now)) && (!ok ==> next == db) &&
            (ok ==> WritesOnly(db, next, id) &&
                    var was, job, ran, run := db.jobs[id], next.jobs[id], db.runs[db.jobs[id].runId], next.runs[db.jobs[id].runId];
                    SameOrder(was, job) && IsUnleased(job) && job.state == Queued && job.availableAt == availableAt &&
                    job.fencingToken == was.fencingToken && job.attempt == was.attempt && job.errorCode == was.errorCode &&
                    SameRun(ran, run) && run.phase == PhQueued && run.outcome == None && run.status == StRunning &&
                    run.runnerId == None && run.currentJobId == ran.currentJobId && run.attempt == ran.attempt &&
                    run.cancelRequested == ran.cancelRequested && run.startedAt == ran.startedAt &&
                    run.completedAt == ran.completedAt && run.errorCode == ran.errorCode)
  {
  }

  /** The two rows say how a job of this result ended. */
  ghost predicate EndedAs(job: P.JobRow, run: P.RunRow, state: JobState, phase: RunPhase, outcome: RunOutcome, status: RunStatus) {
    job.state == state && run.phase == phase && run.outcome == Some(outcome) && run.status == status
  }

  /** An accepted completion writes into both rows how the job ended, by its result; a refused one
      writes nothing. */
  lemma CompletedRowsAre(db: P.Db, id: Id, leaseId: Id, token: int, status: JobResult, error: Option<string>, now: int)
    requires RowsOk(db) && status != JobRequeue
    ensures var (next, ok) := P.Complete(db, id, leaseId, token, status, error, now);
            (ok <==> HoldsLease(db, id, leaseId, token, now)) && (!ok ==> next == db) &&
            (ok ==> WritesOnly(db, next, id) &&
                    var was, job, ran, run := db.jobs[id], next.jobs[id], db.runs[db.jobs[id].runId], next.runs[db.jobs[id].runId];
                    SameOrder(was, job) && IsUnleased(job) && job.fencingToken == was.fencingToken && job.attempt == was.attempt &&
                    job.availableAt == was.availableAt && job.errorCode == error &&
                    SameRun(ran, run) && run.runnerId == ran.runnerId && run.currentJobId == ran.currentJobId &&
                    run.attempt == ran.attempt && run.cancelRequested == ran.cancelRequested && run.startedAt == ran.startedAt &&
                    run.completedAt == Some(now) && run.errorCode == error &&
                    EndedByResult(status, job, run))
  {
    hide EndedByResult;
    hide TerminalRunState;
    hide TerminalJobState;
    if P.UnderLease(db, id, leaseId, token, now) {
      var job := db.jobs[id];
      FinishedRowsAre(job, db.runs[job.runId], status, error, now);
    }
  }

  /** The values each result writes. */
  ghost predicate EndedByResult(status: JobResult, job: P.JobRow, run: P.RunRow) {
    (status == JobCompleted ==> EndedAs(job, run, Completed, PhComplete, OutPassed, StPassed)) &&
    (status == JobFailed ==> EndedAs(job, run, Failed, PhComplete, OutFailed, StFailed)) &&
    (status == JobCancelled ==> EndedAs(job, run, Cancelled, PhCancelled, OutCancelled, StInterrupted)) &&
    (status == JobTimedOut ==> EndedAs(job, run, Failed, PhTimedOut, OutTimedOut, StInterrupted)) &&
    (status == JobInfraFailed ==> EndedAs(job, run, Failed, PhInfraFailed, OutInfraFailed, StInterrupted)) &&
    (status == JobConfigFailed ==> EndedAs(job, run, Failed, PhConfigFailed, OutConfigFailed, StInterrupted)) &&
    (status == JobRunnerLost ==> EndedAs(job, run, Failed, PhRunnerLost, OutRunnerLost, StInterrupted))
  }

  lemma FinishedRowsAre(job: P.JobRow, run: P.RunRow, status: JobResult, error: Option<string>, now: int)
    requires status != JobRequeue
    ensures EndedByResult(status, P.FreeRow(job.(state := TerminalJobState(status), errorCode := error)),
                          P.FinishRun(run, status, error, now))
  {
  }

  /** Attempts a run allows: its own budget, rounded down, when it is a positive number. */
  lemma BudgetIs(configured: Option<real>, fallback: int)
    ensures var n := P.MaxAttemptsFor(configured, fallback);
            if configured.Some? && configured.value > 0.0 then n as real <= configured.value < (n + 1) as real
            else n == fallback
  {
  }

  /** How the reaper leaves a job whose lease expired, and its run. */
  ghost predicate IsRecovered(cfg: P.Config, was: P.JobRow, ran: P.RunRow, job: P.JobRow, run: P.RunRow, now: int) {
    var budget := P.MaxAttemptsFor(ran.maxAttempts, cfg.maxAttempts);
    SameOrder(was, job) && IsUnleased(job) && job.fencingToken == was.fencingToken &&
    job.availableAt == now + cfg.retryBackoffMs && job.errorCode == Some("RUNNER_LOST") &&
    SameRun(ran, run) && run.runnerId == None && run.currentJobId == ran.currentJobId && run.attempt == job.attempt &&
    run.cancelRequested == ran.cancelRequested && run.startedAt == ran.startedAt && run.errorCode == Some("RUNNER_LOST") &&
    (ran.cancelRequested ==>
       job.attempt == was.attempt && EndedAs(job, run, Cancelled, PhCancelled, OutCancelled, StFailed) && run.completedAt == Some(now)) &&
    (!ran.cancelRequested && was.attempt >= budget ==>
       job.attempt == was.attempt && EndedAs(job, run, Failed, PhRunnerLost, OutRunnerLost, StFailed) && run.completedAt == Some(now)) &&
    (!ran.cancelRequested && was.attempt < budget ==>
       job.attempt == was.attempt + 1 && job.state == Queued && run.phase == PhQueued && run.outcome == None &&
       run.status == StRunning && run.completedAt == ran.completedAt)
  }

  lemma RecoveredRowsAre(cfg: P.Config, db: P.Db, id: Id, now: int)
    requires id in db.jobs && db.jobs[id].runId in db.runs
    ensures var next := P.RecoverLease(cfg, db, id, now);
            WritesOnly(db, next, id) &&
            IsRecovered(cfg, db.jobs[id], db.runs[db.jobs[id].runId], next.jobs[id], next.runs[db.jobs[id].runId], now)
  {
  }

  /** The row's lease had run out. */
  ghost predicate HasExpired(job: P.JobRow, now: int) {
    job.state == Leased && job.leaseExpiresAt.Some? && job.leaseExpiresAt.value <= now
  }

  /** The job's two rows after a reap of `ids`: recovered if it is one of them and its lease had run
      out, and otherwise as they were. */
  ghost predicate ReapedPair(cfg: P.Config, db: P.Db, next: P.Db, ids: seq<Id>, now: int, id: Id)
    requires id in db.jobs && db.jobs[id].runId in db.runs
  {
    id in next.jobs && next.jobs[id].runId == db.jobs[id].runId && db.jobs[id].runId in next.runs &&
    var was, ran, job, run := db.jobs[id], db.runs[db.jobs[id].runId], next.jobs[id], next.runs[db.jobs[id].runId];
    if id in ids && HasExpired(was, now) then IsRecovered(cfg, was, ran, job, run, now) else job == was && run == ran
  }

  /** A reap recovers exactly the jobs it visits whose leases had run out, whatever the order. */
  lemma {:induction false} ReapedRowsAre(cfg: P.Config, db: P.Db, ids: seq<Id>, now: int, id: Id)
    requires RowsOk(db) && id in db.jobs
    ensures ReapedPair(cfg, db, P.Reap(cfg, db, ids, now), ids, now, id)
    ensures P.Reap(cfg, db, ids, now).jobs.Keys == db.jobs.Keys && P.Reap(cfg, db, ids, now).runners == db.runners
  {
    if ids == [] {
    } else {
      hide *;
      var front, last := ids[..|ids| - 1], ids[|ids| - 1];
      assert ids == front + [last];
      ReapedRowsAre(cfg, db, front, now, id);
      ReapRefines(cfg, db, front, now);
      KeepsMeans(db, P.Reap(cfg, db, front, now));
      ReapedOneMore(cfg, db, P.Reap(cfg, db, front, now), front, last, now, id);
      ReapedStep(cfg, db, front, last, now);
    }
  }

  lemma ReapedStep(cfg: P.Config, db: P.Db, front: seq<Id>, last: Id, now: int)
    ensures var before := P.Reap(cfg, db, front, now);
            P.Reap(cfg, db, front + [last], now) == if P.Expired(before, last, now) then P.RecoverLease(cfg, before, last, now) else before
  {
    assert (front + [last])[..|front|] == front;
  }

  lemma ReapedOneMore(cfg: P.Config, db: P.Db, before: P.Db, front: seq<Id>, last: Id, now: int, id: Id)
    requires RowsOk(db) && RowsOk(before) && id in db.jobs && ReapedPair(cfg, db, before, front, now, id)
    requires before.jobs.Keys == db.jobs.Keys && before.runners == db.runners
    ensures var next := if P.Expired(before, last, now) then P.RecoverLease(cfg, before, last, now) else before;
            ReapedPair(cfg, db, next, front + [last], now, id) && next.jobs.Keys == db.jobs.Keys && next.runners == db.runners
  {
    if P.Expired(before, last, now) {
      hide IsRecovered;
      hide P.RecoverLease;
      RecoveredRowsAre(cfg, before, last, now);
      RecoveredIsUnleased(cfg, db, before, front, now, id);
      if last != id {
        assert before.jobs[last].runId != before.jobs[id].runId;
      }
    }
  }

  lemma RecoveredIsUnleased(cfg: P.Config, db: P.Db, before: P.Db, front: seq<Id>, now: int, id: Id)
    requires RowsOk(db) && id in db.jobs && ReapedPair(cfg, db, before, front, now, id)
    ensures id in front && HasExpired(db.jobs[id], now) ==> before.jobs[id].state != Leased
  {
  }

  /** Cancelling ends a run that had not ended, and its job with it unless that had. */
  lemma CancelledRowsAre(db: P.Db, runId: Id, now: int)
    ensures var next := P.CancelRun(db, runId, now);
            next.runners == db.runners && next.jobs.Keys == db.jobs.Keys && next.runs.Keys == db.runs.Keys &&
            if runId in db.runs && !IsTerminalPhase(db.runs[runId].phase) then
              (forall r :: r in db.runs && r != runId ==> next.runs[r] == db.runs[r]) &&
              (var ran, run := db.runs[runId], next.runs[runId];
               SameRun(ran, run) && run.phase == PhCancelled && run.outcome == Some(OutCancelled) && run.status == StRunning &&
               run.cancelRequested && run.completedAt == Some(now) && run.runnerId == ran.runnerId &&
               run.currentJobId == ran.currentJobId && run.attempt == ran.attempt && run.startedAt == ran.startedAt &&
               run.errorCode == ran.errorCode) &&
              forall id :: id in db.jobs ==>
                if db.jobs[id].runId == runId && db.jobs[id].state !in {Completed, Failed, Cancelled} then
                  SameOrder(db.jobs[id], next.jobs[id]) && IsUnleased(next.jobs[id]) && next.jobs[id].state == Cancelled &&
                  next.jobs[id].fencingToken == db.jobs[id].fencingToken && next.jobs[id].attempt == db.jobs[id].attempt &&
                  next.jobs[id].availableAt == db.jobs[id].availableAt && next.jobs[id].errorCode == db.jobs[id].errorCode
                else next.jobs[id] == db.jobs[id]
            else next == db
  {
  }

  /** The last event of a batch that asks for a phase, and nothing after it does. */
  ghost predicate AsksLast(events: seq<Option<P.Asked>>, n: nat) {
    n < |events| && events[n].Some? && forall m :: n < m < |events| ==> events[m] == None
  }

  lemma {:induction false} LastAskedIs(events: seq<Option<P.Asked>>, n: nat)
    ensures AsksLast(events, n) ==> P.LastAsked(events) == Some(DeriveRunState(events[n].value.phase, events[n].value.claimed))
    ensures P.LastAsked(events) == None <==> forall m :: 0 <= m < |events| ==> events[m] == None
  {
    if events != [] {
      var front, last := events[..|events| - 1], events[|events| - 1];
      LastAskedIs(front, n);
      assert events == front + [last];
      if last == None {
        assert AsksLast(events, n) ==> AsksLast(front, n);
        assert forall m :: 0 <= m < |front| ==> events[m] == front[m];
      } else {
        assert AsksLast(events, n) ==> n == |front|;
        assert events[|front|] != None;
      }
    }
  }

  /** A batch under the job's lease, run out or not, gives the run the phase its last phase-bearing
      event asks for, with the outcome and status that go with it, and writes no job row; under any
      other lease it writes nothing. */
  lemma EventRowsAre(db: P.Db, id: Id, leaseId: Id, token: int, events: seq<Option<P.Asked>>, now: int, n: nat)
    requires RowsOk(db)
    ensures var (next, ok) := P.ApplyEvents(db, id, leaseId, token, events, now);
            (ok <==> id in db.jobs && db.jobs[id].state == Leased && db.jobs[id].leaseId == Some(leaseId) &&
                     db.jobs[id].fencingToken == token) &&
            (!ok || (forall m :: 0 <= m < |events| ==> events[m] == None) ==> next == db) &&
            (ok && AsksLast(events, n) ==>
               var runId, asked := db.jobs[id].runId, DeriveRunState(events[n].value.phase, events[n].value.claimed);
               runId in next.runs && next == db.(runs := db.runs[runId := next.runs[runId]]) &&
               var ran, run := db.runs[runId], next.runs[runId];
               run.phase == events[n].value.phase && run.outcome == asked.outcome && run.status == asked.status &&
               run.completedAt == (if IsTerminalPhase(run.phase) then Some(now) else None) && SameRun(ran, run) &&
               run.runnerId == ran.runnerId && run.currentJobId == ran.currentJobId && run.attempt == ran.attempt &&
               run.cancelRequested == ran.cancelRequested && run.startedAt == ran.startedAt && run.errorCode == ran.errorCode)
  {
    hide AsksLast;
    LastAskedIs(events, n);
    if AsksLast(events, n) {
      AskedOne(events, n);
    }
  }

  lemma AskedOne(events: seq<Option<P.Asked>>, n: nat)
    requires AsksLast(events, n)
    ensures n < |events| && events[n].Some?
  {
  }

  // ---- A job that was put back is left alone until its time ----

  /** Not leased, and not before `at` to be taken. */
  ghost predicate RestsUntil(db: P.Db, job: Id, at: int) {
    job in db.jobs && db.jobs[job].state != Leased && db.jobs[job].availableAt == at
  }

  ghost predicate IsTaken(cfg: P.Config, db: P.Db, t: Txn, job: Id) {
    t.ClaimTxn? && Claimed(cfg, db, t) == Some(job)
  }

  lemma ClaimLeavesResting(cfg: P.Config, db: P.Db, t: Txn, job: Id, at: int)
    requires RowsOk(db) && t.ClaimTxn? && RestsUntil(db, job, at) && !IsTaken(cfg, db, t, job)
    ensures RestsUntil(Step(cfg, db, t), job, at)
  {
  }

  lemma ReapLeavesResting(cfg: P.Config, db: P.Db, t: Txn, job: Id, at: int)
    requires RowsOk(db) && t.ReapTxn? && RestsUntil(db, job, at)
    ensures RestsUntil(Step(cfg, db, t), job, at)
  {
    ReapedRowsAre(cfg, db, t.ids, t.now, job);
  }

  lemma LeaseCallLeavesResting(cfg: P.Config, db: P.Db, t: Txn, job: Id, at: int)
    requires RowsOk(db) && (t.RenewTxn? || t.ReleaseTxn? || t.CompleteTxn? || t.EventTxn?) && RestsUntil(db, job, at)
    ensures RestsUntil(Step(cfg, db, t), job, at)
  {
  }

  lemma RowCallLeavesResting(cfg: P.Config, db: P.Db, t: Txn, job: Id, at: int)
    requires Fits(db, t) && (t.CreateTxn? || t.CancelTxn?) && RestsUntil(db, job, at)
    ensures RestsUntil(Step(cfg, db, t), job, at)
  {
  }

  lemma StepLeavesResting(cfg: P.Config, db: P.Db, t: Txn, job: Id, at: int)
    requires RowsOk(db) && Fits(db, t) && RestsUntil(db, job, at) && !IsTaken(cfg, db, t, job)
    ensures RestsUntil(Step(cfg, db, t), job, at)
  {
    hide *;
    if t.ClaimTxn? {
      ClaimLeavesResting(cfg, db, t, job, at);
    } else if t.ReapTxn? {
      ReapLeavesResting(cfg, db, t, job, at);
    } else if t.CreateTxn? || t.CancelTxn? {
      RowCallLeavesResting(cfg, db, t, job, at);
    } else {
      LeaseCallLeavesResting(cfg, db, t, job, at);
    }
  }

  /** A job that is not leased is next claimed at its time or later, over every run. */
  lemma {:induction false} RestsUntilClaimed(cfg: P.Config, r: Trace, i: nat, j: nat, job: Id, at: int)
    requires IsRun(cfg, r) && i <= j < |r.ts| && RestsUntil(r.dbs[i], job, at) && IsTaken(cfg, r.dbs[j], r.ts[j], job)
    requires forall n :: i <= n < j ==> !IsTaken(cfg, r.dbs[n], r.ts[n], job)
    ensures r.ts[j].ClaimTxn? && at <= r.ts[j].now
    decreases j - i
  {
    hide *;
    RunShape(cfg, r);
    StaysConsistent(cfg, r, i);
    if i == j {
      TakenIsDue(cfg, r.dbs[i], r.ts[i], job, at);
    } else {
      RunStep(cfg, r, i);
      StepLeavesResting(cfg, r.dbs[i], r.ts[i], job, at);
      RestsUntilClaimed(cfg, r, i + 1, j, job, at);
    }
  }

  lemma RunStep(cfg: P.Config, r: Trace, i: nat)
    requires IsRun(cfg, r) && i < |r.ts|
    ensures Fits(r.dbs[i], r.ts[i]) && r.dbs[i + 1] == Step(cfg, r.dbs[i], r.ts[i])
  {
    assert StepsAt(cfg, r, i);
  }

  lemma TakenIsDue(cfg: P.Config, db: P.Db, t: Txn, job: Id, at: int)
    requires RestsUntil(db, job, at) && IsTaken(cfg, db, t, job)
    ensures t.ClaimTxn? && at <= t.now
  {
    ClaimTakes(cfg, db, t);
  }

  /** So a job that a reap recovered is not claimed again until the retry backoff is over by the
      claim's clock. */
  lemma RecoveredJobBacksOff(cfg: P.Config, r: Trace, i: nat, j: nat, job: Id)
    requires IsRun(cfg, r) && i < j < |r.ts| && r.ts[i].ReapTxn? && job in r.ts[i].ids && job in r.dbs[i].jobs
    requires HasExpired(r.dbs[i].jobs[job], r.ts[i].now) && IsTaken(cfg, r.dbs[j], r.ts[j], job)
    requires forall n :: i < n < j ==> !IsTaken(cfg, r.dbs[n], r.ts[n], job)
    ensures r.ts[j].ClaimTxn? && r.ts[i].now + cfg.retryBackoffMs <= r.ts[j].now
  {
    hide *;
    RunShape(cfg, r);
    StaysConsistent(cfg, r, i);
    RunStep(cfg, r, i);
    ReapRests(cfg, r.dbs[i], r.ts[i], job);
    RestsUntilClaimed(cfg, r, i + 1, j, job, r.ts[i].now + cfg.retryBackoffMs);
  }

  lemma ReapRests(cfg: P.Config, db: P.Db, t: Txn, job: Id)
    requires RowsOk(db) && t.ReapTxn? && job in t.ids && job in db.jobs && HasExpired(db.jobs[job], t.now)
    ensures RestsUntil(Step(cfg, db, t), job, t.now + cfg.retryBackoffMs)
  {
    ReapedRowsAre(cfg, db, t.ids, t.now, job);
  }

  /** Nor is one its holder released, before the time the holder named. */
  lemma ReleasedJobWaits(cfg: P.Config, r: Trace, i: nat, j: nat, job: Id)
    requires IsRun(cfg, r) && i < j < |r.ts| && r.ts[i].ReleaseTxn? && r.ts[i].job == job && Call(cfg, r.dbs[i], r.ts[i]).1
    requires IsTaken(cfg, r.dbs[j], r.ts[j], job)
    requires forall n :: i < n < j ==> !IsTaken(cfg, r.dbs[n], r.ts[n], job)
    ensures r.ts[j].ClaimTxn? && r.ts[i].availableAt <= r.ts[j].now
  {
    hide *;
    RunShape(cfg, r);
    StaysConsistent(cfg, r, i);
    RunStep(cfg, r, i);
    ReleaseRests(cfg, r.dbs[i], r.ts[i], job);
    RestsUntilClaimed(cfg, r, i + 1, j, job, r.ts[i].availableAt);
  }

  lemma ReleaseRests(cfg: P.Config, db: P.Db, t: Txn, job: Id)
    requires RowsOk(db) && t.ReleaseTxn? && t.job == job && Call(cfg, db, t).1
    ensures RestsUntil(Step(cfg, db, t), job, t.availableAt)
  {
    ReleasedRowsAre(db, job, t.leaseId, t.token, t.availableAt, t.now);
  }
}
