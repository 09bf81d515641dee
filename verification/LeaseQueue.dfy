/** The in-memory execution store's job queue as a value, and what each of its calls does to
    it. Every call brings the clock readings it makes; nothing assumes that clocks agree. */
module LeaseQueue {
  import opened Wrappers
  import opened LeaseMachine

  datatype Config = Config(leaseDurationMs: int, retryBackoffMs: int, starvationAfterMs: int,
                           maxAttempts: int, workspaceQuota: int, projectQuota: int)

  datatype Job = Job(
    id: Id, runId: Id, workspaceId: Id, projectId: Option<Id>, attempt: int, maxAttempts: int,
    priority: int, state: JobState, availableAt: int, requiredCapabilities: set<Id>,
    labels: set<Id>, leaseId: Option<Id>, leaseOwner: Option<Id>, leaseExpiresAt: Option<int>,
    fencingToken: nat, cancelRequested: bool, error: Option<string>, createdAt: int, updatedAt: int)

  datatype Health = Healthy | Draining | Offline | Revoked

  datatype Runner = Runner(capabilities: set<Id>, labels: set<Id>, slots: int, health: Health)

  /** What `addJob` is given; an absent field takes the store's default. */
  datatype Seed = Seed(
    id: Id, runId: Id, workspaceId: Id, projectId: Option<Id>, attempt: Option<int>,
    maxAttempts: Option<int>, priority: Option<int>, availableAt: Option<int>,
    requiredCapabilities: set<Id>, labels: set<Id>, createdAt: Option<int>)

  datatype JobClaim = JobClaim(
    jobId: Id, runId: Id, workspaceId: Id, projectId: Option<Id>, attempt: int, leaseId: Id,
    leaseOwner: Id, leaseExpiresAt: int, fencingToken: nat)

  datatype ResultStatus =
    | ResultCompleted | ResultFailed | ResultCancelled | ResultTimedOut
    | ResultInfraFailed | ResultConfigFailed | ResultRunnerLost

  datatype Completion = Completion(leaseId: Id, fencingToken: int, status: ResultStatus, error: Option<string>)

  datatype RecoveryPhase = PhaseQueued | PhaseCancelled | PhaseRunnerLost

  datatype Recovery = Recovery(jobId: Id, runId: Id, previousOwner: Option<Id>, requeued: bool,
                               nextAttempt: int, phase: RecoveryPhase)

  /** `order` lists the job ids as the store's map iterates them. */
  datatype Queue = Queue(order: seq<Id>, jobs: map<Id, Job>, runners: map<Id, Runner>)

  ghost predicate WellFormed(q: Queue) {
    (forall id :: id in q.order <==> id in q.jobs) &&
    (forall id :: id in q.jobs ==> JobOk(q.jobs[id], id))
  }

  ghost predicate Distinct(ids: seq<Id>) {
    forall i, j :: 0 <= i < j < |ids| ==> ids[i] != ids[j]
  }

  predicate JobOk(job: Job, id: Id) {
    job.id == id &&
    if job.state.Leased? then job.leaseId.Some? && job.leaseOwner.Some? && job.leaseExpiresAt.Some?
    else job.leaseId.None? && job.leaseOwner.None? && job.leaseExpiresAt.None?
  }

  ghost predicate IdsAgree(jobs: map<Id, Job>) {
    forall id :: id in jobs ==> jobs[id].id == id
  }

  // ---- Jobs and runners coming in ----

  function FreshJob(cfg: Config, seed: Seed, clock: int): Job {
    Job(seed.id, seed.runId, seed.workspaceId, seed.projectId, seed.attempt.GetOr(1),
        seed.maxAttempts.GetOr(cfg.maxAttempts), seed.priority.GetOr(0), Queued,
        seed.availableAt.GetOr(clock), seed.requiredCapabilities, seed.labels, None, None, None,
        0, false, None, seed.createdAt.GetOr(clock), clock)
  }

  function AddJob(cfg: Config, q: Queue, seed: Seed, clock: int): Queue {
    q.(order := if seed.id in q.jobs then q.order else q.order + [seed.id],
       jobs := q.jobs[seed.id := FreshJob(cfg, seed, clock)])
  }

  function AddRunner(q: Queue, id: Id, runner: Runner): Queue {
    q.(runners := q.runners[id := runner])
  }

  function Cancel(q: Queue, id: Id, clock: int): (Queue, bool) {
    if id !in q.jobs then (q, false)
    else
      var job := q.jobs[id];
      (q.(jobs := q.jobs[id := job.(cancelRequested := true,
                                    state := if job.state.Waiting() then Cancelled else job.state,
                                    updatedAt := clock)]), true)
  }

  // ---- Lapsed leases ----

  /** A leased job whose lease ran out at or before `now`. */
  predicate LeaseHasLapsed(job: Job, now: int) {
    job.state.Leased? && job.leaseExpiresAt.Some? && !(job.leaseExpiresAt.value > now)
  }

  function ClearLease(job: Job): Job {
    job.(leaseId := None, leaseOwner := None, leaseExpiresAt := None)
  }

  function RecoverJob(cfg: Config, job: Job, now: int): Job {
    var requeued := !job.cancelRequested && job.attempt < job.maxAttempts;
    ClearLease(job.(attempt := if requeued then job.attempt + 1 else job.attempt,
                    state := if requeued then Queued else if job.cancelRequested then Cancelled else Failed,
                    availableAt := now + cfg.retryBackoffMs,
                    error := Some("RUNNER_LOST"),
                    updatedAt := now))
  }

  function RecoveryOf(job: Job): Recovery {
    var requeued := !job.cancelRequested && job.attempt < job.maxAttempts;
    Recovery(job.id, job.runId, job.leaseOwner, requeued,
             if requeued then job.attempt + 1 else job.attempt,
             if requeued then PhaseQueued else if job.cancelRequested then PhaseCancelled else PhaseRunnerLost)
  }

  function Reaped(cfg: Config, job: Job, now: int): Job {
    if LeaseHasLapsed(job, now) then RecoverJob(cfg, job, now) else job
  }

  function ReapJobs(cfg: Config, jobs: map<Id, Job>, now: int): map<Id, Job> {
    map id | id in jobs :: Reaped(cfg, jobs[id], now)
  }

  function Recoveries(jobs: map<Id, Job>, ids: seq<Id>, now: int): seq<Recovery> {
    if ids == [] then []
    else Recoveries(jobs, ids[..|ids| - 1], now) +
         var id := ids[|ids| - 1];
         if id in jobs && LeaseHasLapsed(jobs[id], now) then [RecoveryOf(jobs[id])] else []
  }

  function Reap(cfg: Config, q: Queue, now: int): Queue {
    q.(jobs := ReapJobs(cfg, q.jobs, now))
  }

  // ---- Claiming ----

  function ActiveOn(jobs: map<Id, Job>, runner: Id): set<Id> {
    set id | id in jobs && jobs[id].leaseOwner == Some(runner) && jobs[id].state.Leased?
  }

  function ActiveInWorkspace(jobs: map<Id, Job>, workspace: Id): set<Id> {
    set id | id in jobs && jobs[id].state.Leased? && jobs[id].workspaceId == workspace
  }

  function ActiveInProject(jobs: map<Id, Job>, project: Id): set<Id> {
    set id | id in jobs && jobs[id].state.Leased? && jobs[id].projectId == Some(project)
  }

  predicate Eligible(cfg: Config, jobs: map<Id, Job>, id: Id, capabilities: set<Id>, labels: set<Id>, now: int) {
    id in jobs &&
    var job := jobs[id];
    job.state.Waiting() &&
    !job.cancelRequested &&
    job.availableAt <= now &&
    job.requiredCapabilities <= capabilities &&
    job.labels <= labels &&
    |ActiveInWorkspace(jobs, job.workspaceId)| < cfg.workspaceQuota &&
    (job.projectId.Some? ==> |ActiveInProject(jobs, job.projectId.value)| < cfg.projectQuota)
  }

  /** Priority, raised by one for every full starvation period the job has waited. */
  function Rank(cfg: Config, job: Job, now: int): int
    requires cfg.starvationAfterMs > 0
  {
    job.priority + (now - job.createdAt) / cfg.starvationAfterMs
  }

  /** The claim order: higher rank, then older, then by id. */
  predicate Precedes(cfg: Config, a: Job, b: Job, now: int)
    requires cfg.starvationAfterMs > 0
  {
    var ra, rb := Rank(cfg, a, now), Rank(cfg, b, now);
    if ra != rb then ra > rb
    else if a.createdAt != b.createdAt then a.createdAt < b.createdAt
    else a.id < b.id
  }

  /** The first of the eligible jobs among `ids`, in the claim order. */
  function Foremost(cfg: Config, jobs: map<Id, Job>, ids: seq<Id>, capabilities: set<Id>, labels: set<Id>, now: int): (best: Option<Id>)
    requires cfg.starvationAfterMs > 0
    requires IdsAgree(jobs)
    ensures best.None? ==> forall id :: id in ids ==> !Eligible(cfg, jobs, id, capabilities, labels, now)
    ensures best.Some? ==> best.value in ids && Eligible(cfg, jobs, best.value, capabilities, labels, now)
    ensures best.Some? ==> forall id :: id in ids && Eligible(cfg, jobs, id, capabilities, labels, now) ==>
              id == best.value || Precedes(cfg, jobs[best.value], jobs[id], now)
  {
    if ids == [] then None
    else
      var rest := Foremost(cfg, jobs, ids[..|ids| - 1], capabilities, labels, now);
      var id := ids[|ids| - 1];
      if !Eligible(cfg, jobs, id, capabilities, labels, now) then rest
      else if rest.Some? && (rest.value == id || Precedes(cfg, jobs[rest.value], jobs[id], now)) then rest
      else Some(id)
  }

  function GrantTo(cfg: Config, job: Job, runnerId: Id, now: int, leaseId: Id): Job {
    job.(state := Leased, leaseId := Some(leaseId), leaseOwner := Some(runnerId),
         leaseExpiresAt := Some(now + cfg.leaseDurationMs), fencingToken := job.fencingToken + 1,
         updatedAt := now)
  }

  function ClaimOf(job: Job, leaseId: Id, runnerId: Id, expiresAt: int): JobClaim {
    JobClaim(job.id, job.runId, job.workspaceId, job.projectId, job.attempt, leaseId, runnerId,
             expiresAt, job.fencingToken)
  }

  /** The job a claim by `runnerId` takes from a queue whose lapsed leases are already recovered. */
  function Pick(cfg: Config, q: Queue, runnerId: Id, capabilities: set<Id>, labels: set<Id>, now: int): (pick: Option<Id>)
    requires cfg.starvationAfterMs > 0
    requires IdsAgree(q.jobs)
    ensures pick.Some? ==> pick.value in q.jobs && q.jobs[pick.value].state.Waiting() && !q.jobs[pick.value].cancelRequested
  {
    if runnerId !in q.runners || !q.runners[runnerId].health.Healthy? then None
    else if |ActiveOn(q.jobs, runnerId)| >= q.runners[runnerId].slots then None
    else Foremost(cfg, q.jobs, q.order, q.runners[runnerId].capabilities + capabilities,
                  q.runners[runnerId].labels + labels, now)
  }

  /** Lease the picked job, if there is one. */
  function Take(cfg: Config, q: Queue, pick: Option<Id>, runnerId: Id, now: int, leaseId: Id): (Queue, Option<JobClaim>)
    requires pick.Some? ==> pick.value in q.jobs
  {
    match pick
    case None => (q, None)
    case Some(id) =>
      var job := GrantTo(cfg, q.jobs[id], runnerId, now, leaseId);
      (q.(jobs := q.jobs[id := job]), Some(ClaimOf(job, leaseId, runnerId, now + cfg.leaseDurationMs)))
  }

  function Claim(cfg: Config, q: Queue, runnerId: Id, capabilities: set<Id>, labels: set<Id>, now: int, leaseId: Id)
    : (Queue, Option<JobClaim>)
    requires cfg.starvationAfterMs > 0
    requires IdsAgree(q.jobs)
  {
    var reaped := Reap(cfg, q, now);
    Take(cfg, reaped, Pick(cfg, reaped, runnerId, capabilities, labels, now), runnerId, now, leaseId)
  }

  // ---- Calls made under a lease ----

  predicate MatchesLease(q: Queue, id: Id, leaseId: Id, fencingToken: int, clock: int) {
    id in q.jobs &&
    var job := q.jobs[id];
    job.state.Leased? && job.leaseId == Some(leaseId) && job.fencingToken == fencingToken &&
    job.leaseExpiresAt.Some? && !(job.leaseExpiresAt.value <= clock)
  }

  function Renew(q: Queue, id: Id, leaseId: Id, fencingToken: int, expiresAt: int, clock: int): (Queue, bool) {
    if !MatchesLease(q, id, leaseId, fencingToken, clock) then (q, false)
    else (q.(jobs := q.jobs[id := q.jobs[id].(leaseExpiresAt := Some(expiresAt), updatedAt := clock)]), true)
  }

  function Release(q: Queue, id: Id, leaseId: Id, fencingToken: int, availableAt: int, clock: int): (Queue, bool) {
    if !MatchesLease(q, id, leaseId, fencingToken, clock) then (q, false)
    else (q.(jobs := q.jobs[id := ClearLease(q.jobs[id].(state := Queued, availableAt := availableAt, updatedAt := clock))]), true)
  }

  function StateFor(status: ResultStatus): JobState {
    match status
    case ResultCompleted => Completed
    case ResultCancelled => Cancelled
    case _ => Failed
  }

  function Complete(q: Queue, id: Id, c: Completion, clock: int): (Queue, bool) {
    if !MatchesLease(q, id, c.leaseId, c.fencingToken, clock) then (q, false)
    else (q.(jobs := q.jobs[id := ClearLease(q.jobs[id].(state := StateFor(c.status), error := c.error, updatedAt := clock))]), true)
  }

  // ---- Runs of calls ----

  datatype Event =
    | AddRunnerCall(runnerId: Id, runner: Runner)
    | AddJobCall(seed: Seed, clock: int)
    | CancelCall(jobId: Id, clock: int)
    | ClaimCall(runnerId: Id, capabilities: set<Id>, labels: set<Id>, now: int, newLease: Id)
    | RenewCall(jobId: Id, leaseId: Id, token: int, expiresAt: int, clock: int)
    | ReleaseCall(jobId: Id, leaseId: Id, token: int, availableAt: int, clock: int)
    | CompleteCall(jobId: Id, completion: Completion, clock: int)
    | ReapCall(now: int)

  datatype Reply = Done | Answer(ok: bool) | Claimed(claim: Option<JobClaim>) | Recovered(recoveries: seq<Recovery>)

  function Call(cfg: Config, q: Queue, e: Event): (r: (Queue, Reply))
    requires cfg.starvationAfterMs > 0
    requires IdsAgree(q.jobs)
    ensures IdsAgree(r.0.jobs)
  {
    match e
    case AddRunnerCall(id, runner) => (AddRunner(q, id, runner), Done)
    case AddJobCall(seed, clock) => (AddJob(cfg, q, seed, clock), Done)
    case CancelCall(id, clock) => var r := Cancel(q, id, clock); (r.0, Answer(r.1))
    case ClaimCall(runnerId, capabilities, labels, now, newLease) =>
      var r := Claim(cfg, q, runnerId, capabilities, labels, now, newLease); (r.0, Claimed(r.1))
    case RenewCall(id, leaseId, token, expiresAt, clock) =>
      var r := Renew(q, id, leaseId, token, expiresAt, clock); (r.0, Answer(r.1))
    case ReleaseCall(id, leaseId, token, availableAt, clock) =>
      var r := Release(q, id, leaseId, token, availableAt, clock); (r.0, Answer(r.1))
    case CompleteCall(id, completion, clock) =>
      var r := Complete(q, id, completion, clock); (r.0, Answer(r.1))
    case ReapCall(now) => (Reap(cfg, q, now), Recovered(Recoveries(q.jobs, q.order, now)))
  }
}
