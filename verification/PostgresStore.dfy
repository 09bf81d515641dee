/** The Postgres execution store: a job table, a run table and a runner table, each transaction
    one atomic change of the rows. */
module PostgresStore {
  import opened Wrappers
  import opened LeaseMachine
  import opened PhaseOutcome

  datatype Config = Config(leaseDurationMs: int, retryBackoffMs: int, starvationAfterMs: int,
                           maxAttempts: int, workspaceQuota: int, projectQuota: int)

  datatype JobRow = JobRow(
    runId: Id, workspaceId: Id, attempt: int, priority: int, state: JobState, availableAt: int,
    requiredCapabilities: set<Id>, labels: set<Id>, leaseId: Option<Id>, leaseOwner: Option<Id>,
    leaseExpiresAt: Option<int>, fencingToken: nat, createdAt: int, errorCode: Option<string>)

  /** `maxAttempts` is the run's own attempt budget from its metadata, when it is a number. */
  datatype RunRow = RunRow(
    projectId: Option<Id>, phase: RunPhase, outcome: Option<RunOutcome>, status: RunStatus,
    runnerId: Option<Id>, currentJobId: Option<Id>, attempt: int, cancelRequested: bool,
    maxAttempts: Option<real>, startedAt: Option<int>, completedAt: Option<int>, errorCode: Option<string>)

  datatype RunnerRow = RunnerRow(workspaceId: Id, capabilities: set<Id>, labels: set<Id>, slots: int,
                                 healthy: bool, tokenRevoked: bool, tokenExpiresAt: Option<int>)

  datatype Db = Db(jobs: map<Id, JobRow>, runs: map<Id, RunRow>, runners: map<Id, RunnerRow>)

  /** A job may declare its own attempt budget in its run's metadata; otherwise the store's applies. */
  function MaxAttemptsFor(configured: Option<real>, fallback: int): int {
    if configured.Some? && configured.value > 0.0 then configured.value.Floor else fallback
  }

  datatype RecoveryPlan = RecoveryPlan(requeued: bool, nextAttempt: int, jobState: JobState, phase: RunPhase,
                                       outcome: Option<RunOutcome>, runStatus: RunStatus)

  function PlanRecovery(cancelRequested: bool, attempt: int, maxAttempts: int): RecoveryPlan {
    if !cancelRequested && attempt < maxAttempts then
      RecoveryPlan(true, attempt + 1, Queued, PhQueued, None, StRunning)
    else
      RecoveryPlan(false, attempt, if cancelRequested then Cancelled else Failed,
                   if cancelRequested then PhCancelled else PhRunnerLost,
                   Some(if cancelRequested then OutCancelled else OutRunnerLost), StFailed)
  }

  // ---- Claiming ----

  predicate RunnerMayClaim(db: Db, runnerId: Id, now: int) {
    runnerId in db.runners &&
    var r := db.runners[runnerId];
    r.healthy && !r.tokenRevoked && (r.tokenExpiresAt.Some? ==> r.tokenExpiresAt.value > now) &&
    |HeldBy(db, runnerId)| < r.slots
  }

  function HeldBy(db: Db, runnerId: Id): set<Id> {
    set id | id in db.jobs && db.jobs[id].leaseOwner == Some(runnerId) && db.jobs[id].state.Leased?
  }

  function WorkspaceActive(db: Db, workspace: Id): set<Id> {
    set id | id in db.jobs && db.jobs[id].workspaceId == workspace && db.jobs[id].state.Leased?
  }

  function ProjectActive(db: Db, project: Id): set<Id> {
    set id | id in db.jobs && db.jobs[id].runId in db.runs && db.runs[db.jobs[id].runId].projectId == Some(project) &&
             db.jobs[id].state.Leased?
  }

  predicate IsCandidate(cfg: Config, db: Db, id: Id, runner: RunnerRow, capabilities: set<Id>, labels: set<Id>, now: int) {
    id in db.jobs && db.jobs[id].runId in db.runs &&
    var job, run := db.jobs[id], db.runs[db.jobs[id].runId];
    job.state.Waiting() && job.workspaceId == runner.workspaceId && job.availableAt <= now && !run.cancelRequested &&
    job.requiredCapabilities <= runner.capabilities + capabilities && job.labels <= runner.labels + labels &&
    |WorkspaceActive(db, job.workspaceId)| < cfg.workspaceQuota &&
    (run.projectId.Some? ==> |ProjectActive(db, run.projectId.value)| < cfg.projectQuota)
  }

  function Candidates(cfg: Config, db: Db, runnerId: Id, capabilities: set<Id>, labels: set<Id>, now: int): set<Id> {
    if !RunnerMayClaim(db, runnerId, now) then {}
    else set id | id in db.jobs && IsCandidate(cfg, db, id, db.runners[runnerId], capabilities, labels, now)
  }

  /** The waiting time in whole starvation periods, a period being at least a second. */
  function Rank(cfg: Config, job: JobRow, now: int): int {
    job.priority + Max(0, now - job.createdAt) / Max(1000, cfg.starvationAfterMs)
  }

  predicate Before(cfg: Config, db: Db, a: Id, b: Id, now: int)
    requires a in db.jobs && b in db.jobs
  {
    var ja, jb := db.jobs[a], db.jobs[b];
    if Rank(cfg, ja, now) != Rank(cfg, jb, now) then Rank(cfg, ja, now) > Rank(cfg, jb, now)
    else if ja.createdAt != jb.createdAt then ja.createdAt < jb.createdAt
    else a < b
  }

  predicate IsFirst(cfg: Config, db: Db, ids: set<Id>, first: Id, now: int)
    requires ids <= db.jobs.Keys
  {
    first in ids && forall id :: id in ids ==> id == first || Before(cfg, db, first, id, now)
  }

  lemma {:induction false} SomeFirst(cfg: Config, db: Db, ids: set<Id>, now: int) returns (first: Id)
    requires ids <= db.jobs.Keys && ids != {}
    ensures IsFirst(cfg, db, ids, first, now)
    decreases ids
  {
    var id :| id in ids;
    if ids == {id} {
      first := id;
    } else {
      var rest := SomeFirst(cfg, db, ids - {id}, now);
      first := if Before(cfg, db, rest, id, now) then rest else id;
      forall other | other in ids ensures other == first || Before(cfg, db, first, other, now) {
        if other != id && first == id && other != rest {
          BeforeChain(cfg, db, id, rest, other, now);
        }
      }
    }
  }

  lemma BeforeChain(cfg: Config, db: Db, a: Id, b: Id, c: Id, now: int)
    requires a in db.jobs && b in db.jobs && c in db.jobs && a != b
    requires !Before(cfg, db, b, a, now) && Before(cfg, db, b, c, now)
    ensures Before(cfg, db, a, b, now) && Before(cfg, db, a, c, now)
  {
  }

  /** The query's ORDER BY ... LIMIT 1 names one row: ids break every tie. */
  lemma FirstIsUnique(cfg: Config, db: Db, ids: set<Id>, a: Id, b: Id, now: int)
    requires ids <= db.jobs.Keys && IsFirst(cfg, db, ids, a, now) && IsFirst(cfg, db, ids, b, now)
    ensures a == b
  {
  }

  /** The row the claim's query locks: the first candidate that no other transaction holds. */
  ghost function Pick(cfg: Config, db: Db, runnerId: Id, capabilities: set<Id>, labels: set<Id>, locked: set<Id>, now: int): (pick: Option<Id>)
    ensures pick.None? <==> Candidates(cfg, db, runnerId, capabilities, labels, now) <= locked
    ensures pick.Some? ==> IsFirst(cfg, db, Candidates(cfg, db, runnerId, capabilities, labels, now) - locked, pick.value, now)
  {
    var candidates := Candidates(cfg, db, runnerId, capabilities, labels, now);
    var ids := candidates - locked;
    assert forall id :: id in candidates && id !in locked ==> id in ids;
    if ids == {} then None
    else
      assert exists id :: IsFirst(cfg, db, ids, id, now) by {
        var id := SomeFirst(cfg, db, ids, now);
      }
      var first :| IsFirst(cfg, db, ids, first, now);
      Some(first)
  }

  function GrantRow(cfg: Config, job: JobRow, runnerId: Id, now: int, leaseId: Id): JobRow {
    job.(state := Leased, leaseId := Some(leaseId), leaseOwner := Some(runnerId),
         leaseExpiresAt := Some(now + cfg.leaseDurationMs), fencingToken := job.fencingToken + 1, errorCode := None)
  }

  function AssignRun(run: RunRow, id: Id, runnerId: Id, now: int): RunRow {
    run.(phase := PhAssigned, outcome := None, status := StRunning, runnerId := Some(runnerId),
         currentJobId := Some(id), startedAt := Some(run.startedAt.GetOr(now)))
  }

  function Claim(cfg: Config, db: Db, pick: Option<Id>, runnerId: Id, now: int, leaseId: Id): Db
    requires pick.Some? ==> pick.value in db.jobs && db.jobs[pick.value].runId in db.runs
  {
    match pick
    case None => db
    case Some(id) =>
      var job := db.jobs[id];
      db.(jobs := db.jobs[id := GrantRow(cfg, job, runnerId, now, leaseId)],
          runs := db.runs[job.runId := AssignRun(db.runs[job.runId], id, runnerId, now)])
  }

  // ---- Calls made under a lease; `now` is the database's clock ----

  predicate UnderLease(db: Db, id: Id, leaseId: Id, token: int, now: int) {
    id in db.jobs && db.jobs[id].state.Leased? && db.jobs[id].leaseId == Some(leaseId) &&
    db.jobs[id].fencingToken == token && db.jobs[id].leaseExpiresAt.Some? && db.jobs[id].leaseExpiresAt.value > now
  }

  function FreeRow(job: JobRow): JobRow {
    job.(leaseId := None, leaseOwner := None, leaseExpiresAt := None)
  }

  function Renew(db: Db, id: Id, leaseId: Id, token: int, expiresAt: int, now: int): (Db, bool) {
    if UnderLease(db, id, leaseId, token, now) && expiresAt > now
    then (db.(jobs := db.jobs[id := db.jobs[id].(leaseExpiresAt := Some(expiresAt))]), true)
    else (db, false)
  }

  function ReleaseRun(run: RunRow): RunRow {
    run.(phase := PhQueued, outcome := None, status := StRunning, runnerId := None)
  }

  function Release(db: Db, id: Id, leaseId: Id, token: int, availableAt: int, now: int): (Db, bool) {
    if !UnderLease(db, id, leaseId, token, now) || db.jobs[id].runId !in db.runs then (db, false)
    else
      var job := db.jobs[id];
      (db.(jobs := db.jobs[id := FreeRow(job.(state := Queued, availableAt := availableAt))],
           runs := db.runs[job.runId := ReleaseRun(db.runs[job.runId])]), true)
  }

  function FinishRun(run: RunRow, status: JobResult, error: Option<string>, now: int): RunRow {
    var derived := TerminalRunState(status);
    run.(phase := derived.phase, outcome := derived.outcome, status := derived.status, completedAt := Some(now), errorCode := error)
  }

  function Complete(db: Db, id: Id, leaseId: Id, token: int, status: JobResult, error: Option<string>, now: int): (Db, bool) {
    if !UnderLease(db, id, leaseId, token, now) || db.jobs[id].runId !in db.runs then (db, false)
    else
      var job := db.jobs[id];
      (db.(jobs := db.jobs[id := FreeRow(job.(state := TerminalJobState(status), errorCode := error))],
           runs := db.runs[job.runId := FinishRun(db.runs[job.runId], status, error, now)]), true)
  }

  // ---- Reaping ----

  predicate Expired(db: Db, id: Id, now: int) {
    id in db.jobs && db.jobs[id].runId in db.runs && db.jobs[id].state.Leased? &&
    db.jobs[id].leaseExpiresAt.Some? && db.jobs[id].leaseExpiresAt.value <= now
  }

  function PlanFor(cfg: Config, db: Db, id: Id): RecoveryPlan
    requires id in db.jobs && db.jobs[id].runId in db.runs
  {
    var run := db.runs[db.jobs[id].runId];
    PlanRecovery(run.cancelRequested, db.jobs[id].attempt, MaxAttemptsFor(run.maxAttempts, cfg.maxAttempts))
  }

  function RecoverRow(cfg: Config, job: JobRow, plan: RecoveryPlan, now: int): JobRow {
    FreeRow(job.(state := plan.jobState, attempt := plan.nextAttempt, availableAt := now + cfg.retryBackoffMs,
                 errorCode := Some("RUNNER_LOST")))
  }

  function RecoverRun(run: RunRow, plan: RecoveryPlan, now: int): RunRow {
    run.(attempt := plan.nextAttempt, phase := plan.phase, outcome := plan.outcome, status := plan.runStatus,
         runnerId := None, errorCode := Some("RUNNER_LOST"),
         completedAt := if plan.requeued then run.completedAt else Some(now))
  }

  /** Put one expired lease's job and run into the state its plan chose. */
  function RecoverLease(cfg: Config, db: Db, id: Id, now: int): Db
    requires id in db.jobs && db.jobs[id].runId in db.runs
  {
    var plan, job := PlanFor(cfg, db, id), db.jobs[id];
    db.(jobs := db.jobs[id := RecoverRow(cfg, job, plan, now)],
        runs := db.runs[job.runId := RecoverRun(db.runs[job.runId], plan, now)])
  }

  /** The reaping transaction over the jobs in the order it visits them. */
  function Reap(cfg: Config, db: Db, ids: seq<Id>, now: int): Db {
    if ids == [] then db
    else
      var before := Reap(cfg, db, ids[..|ids| - 1], now);
      var id := ids[|ids| - 1];
      if Expired(before, id, now) then RecoverLease(cfg, before, id, now) else before
  }

  // ---- What the API does to the same rows ----

  /** A run and its one job, inserted together. */
  function Create(db: Db, runId: Id, run: RunRow, jobId: Id, job: JobRow): Db {
    db.(jobs := db.jobs[jobId := job], runs := db.runs[runId := run])
  }

  predicate IsNewRun(db: Db, runId: Id, run: RunRow, jobId: Id, job: JobRow) {
    runId !in db.runs && jobId !in db.jobs && job.runId == runId &&
    run.phase.PhQueued? && run.outcome.None? && !run.cancelRequested &&
    job.state.Queued? && job.fencingToken == 0 && job.leaseId.None? && job.leaseOwner.None? && job.leaseExpiresAt.None?
  }

  /** The phase an event asks its run to take, and the outcome it claims. */
  datatype Asked = Asked(phase: RunPhase, claimed: Option<RunOutcome>)

  /** The state the last phase-bearing event asked for; None when no event did. */
  function LastAsked(events: seq<Option<Asked>>): Option<DerivedRunState> {
    if events == [] then None
    else
      var last := events[|events| - 1];
      if last.Some? then Some(DeriveRunState(last.value.phase, last.value.claimed)) else LastAsked(events[..|events| - 1])
  }

  /** The events a batch accepts move the run's phase and leave the job row alone; the lease must
      match, run out or not. */
  function ApplyEvents(db: Db, id: Id, leaseId: Id, token: int, events: seq<Option<Asked>>, now: int): (Db, bool) {
    if id !in db.jobs || !db.jobs[id].state.Leased? || db.jobs[id].leaseId != Some(leaseId) ||
       db.jobs[id].fencingToken != token || db.jobs[id].runId !in db.runs then (db, false)
    else
      var asked, runId := LastAsked(events), db.jobs[id].runId;
      if asked.None? then (db, true)
      else
        var run := db.runs[runId].(phase := asked.value.phase, outcome := asked.value.outcome, status := asked.value.status,
                                   completedAt := if asked.value.terminal then Some(now) else None);
        (db.(runs := db.runs[runId := run]), true)
  }

  function CancelledRun(run: RunRow, now: int): RunRow {
    run.(phase := PhCancelled, outcome := Some(OutCancelled), status := StRunning, completedAt := Some(now), cancelRequested := true)
  }

  /** A run that has not ended is cancelled together with its live job, leased or not. */
  function CancelRun(db: Db, runId: Id, now: int): Db {
    if runId !in db.runs || IsTerminalPhase(db.runs[runId].phase) then db
    else
      db.(runs := db.runs[runId := CancelledRun(db.runs[runId], now)],
          jobs := map id | id in db.jobs :: if db.jobs[id].runId == runId && !db.jobs[id].state.Terminal()
                                            then FreeRow(db.jobs[id].(state := Cancelled)) else db.jobs[id])
  }
}
