/** What a claim on the in-memory queue takes and what it answers, said in the fields of jobs and
    runners, and how long a job that was put back is left alone. */
module LeaseClaims {
  import opened Wrappers
  import opened LeaseMachine
  import opened LeaseSafety
  import R = LeaseRefinement
  import Q = LeaseQueue

  // ---- What a claim takes ----

  /** The runner is known and healthy and has a slot free. */
  ghost predicate HasFreeSlot(q: Q.Queue, runnerId: Id) {
    runnerId in q.runners && q.runners[runnerId].health == Q.Healthy &&
    |set id | id in q.jobs && q.jobs[id].state == Leased && q.jobs[id].leaseOwner == Some(runnerId)| < q.runners[runnerId].slots
  }

  /** The job waits, nobody asked to cancel it and its time has come. */
  ghost predicate IsReady(job: Q.Job, now: int) {
    (job.state == Queued || job.state == Requeued) && !job.cancelRequested && job.availableAt <= now
  }

  /** All the job asks for is the runner's or the call's. */
  ghost predicate SuitsRunner(job: Q.Job, runner: Q.Runner, capabilities: set<Id>, labels: set<Id>) {
    (forall c :: c in job.requiredCapabilities ==> c in runner.capabilities || c in capabilities) &&
    forall l :: l in job.labels ==> l in runner.labels || l in labels
  }

  ghost predicate UnderQuotas(cfg: Q.Config, jobs: map<Id, Q.Job>, job: Q.Job) {
    |set id | id in jobs && jobs[id].state == Leased && jobs[id].workspaceId == job.workspaceId| < cfg.workspaceQuota &&
    (job.projectId != None ==>
       |set id | id in jobs && jobs[id].state == Leased && jobs[id].projectId == job.projectId| < cfg.projectQuota)
  }

  ghost predicate Fits(cfg: Q.Config, q: Q.Queue, id: Id, runnerId: Id, capabilities: set<Id>, labels: set<Id>, now: int)
    requires runnerId in q.runners
  {
    id in q.jobs && IsReady(q.jobs[id], now) && SuitsRunner(q.jobs[id], q.runners[runnerId], capabilities, labels) &&
    UnderQuotas(cfg, q.jobs, q.jobs[id])
  }

  lemma FitsIsEligible(cfg: Q.Config, q: Q.Queue, id: Id, runnerId: Id, capabilities: set<Id>, labels: set<Id>, now: int)
    requires runnerId in q.runners
    ensures Fits(cfg, q, id, runnerId, capabilities, labels, now) <==>
            Q.Eligible(cfg, q.jobs, id, q.runners[runnerId].capabilities + capabilities, q.runners[runnerId].labels + labels, now)
  {
    if id in q.jobs {
      var job := q.jobs[id];
      assert Q.ActiveInWorkspace(q.jobs, job.workspaceId) ==
             set x | x in q.jobs && q.jobs[x].state == Leased && q.jobs[x].workspaceId == job.workspaceId;
      if job.projectId.Some? {
        assert Q.ActiveInProject(q.jobs, job.projectId.value) ==
               set x | x in q.jobs && q.jobs[x].state == Leased && q.jobs[x].projectId == job.projectId;
      }
    }
  }

  lemma FreeSlotIsActive(q: Q.Queue, runnerId: Id)
    ensures HasFreeSlot(q, runnerId) <==>
            runnerId in q.runners && q.runners[runnerId].health.Healthy? && |Q.ActiveOn(q.jobs, runnerId)| < q.runners[runnerId].slots
  {
    assert Q.ActiveOn(q.jobs, runnerId) == set x | x in q.jobs && q.jobs[x].state == Leased && q.jobs[x].leaseOwner == Some(runnerId);
  }

  /** A claim is refused exactly when, lapsed leases recovered, the runner is absent, unhealthy or
      full, or no job fits it. */
  lemma ClaimRefusedExactlyWhen(cfg: Q.Config, q: Q.Queue, runnerId: Id, capabilities: set<Id>, labels: set<Id>, now: int, leaseId: Id)
    requires cfg.starvationAfterMs > 0 && Q.WellFormed(q)
    ensures var swept := Q.Reap(cfg, q, now);
            Q.Claim(cfg, q, runnerId, capabilities, labels, now, leaseId).1.None? <==>
            !HasFreeSlot(swept, runnerId) || forall id :: !Fits(cfg, swept, id, runnerId, capabilities, labels, now)
  {
    var swept := Q.Reap(cfg, q, now);
    R.ReapWellFormed(cfg, q, now);
    PickSucceedsExactlyWhen(cfg, swept, runnerId, capabilities, labels, now);
  }

  lemma PickSucceedsExactlyWhen(cfg: Q.Config, q: Q.Queue, runnerId: Id, capabilities: set<Id>, labels: set<Id>, now: int)
    requires cfg.starvationAfterMs > 0 && Q.WellFormed(q)
    ensures Q.Pick(cfg, q, runnerId, capabilities, labels, now).Some? <==>
            HasFreeSlot(q, runnerId) && exists id :: Fits(cfg, q, id, runnerId, capabilities, labels, now)
  {
    FreeSlotIsActive(q, runnerId);
    if HasFreeSlot(q, runnerId) {
      hide Q.Eligible;
      hide Fits;
      forall id
        ensures Fits(cfg, q, id, runnerId, capabilities, labels, now) ==>
                  id in q.jobs &&
                  Q.Eligible(cfg, q.jobs, id, q.runners[runnerId].capabilities + capabilities, q.runners[runnerId].labels + labels, now)
      {
        FitsIsEligible(cfg, q, id, runnerId, capabilities, labels, now);
        if Fits(cfg, q, id, runnerId, capabilities, labels, now) {
          FittingIsStored(cfg, q, id, runnerId, capabilities, labels, now);
        }
      }
      var pick := Q.Pick(cfg, q, runnerId, capabilities, labels, now);
      if pick.Some? {
        FitsIsEligible(cfg, q, pick.value, runnerId, capabilities, labels, now);
      }
    }
  }

  lemma FittingIsStored(cfg: Q.Config, q: Q.Queue, id: Id, runnerId: Id, capabilities: set<Id>, labels: set<Id>, now: int)
    requires runnerId in q.runners && Fits(cfg, q, id, runnerId, capabilities, labels, now)
    ensures id in q.jobs
  {
  }

  /** `a` goes before `b`: more priority with one more for each full period it has waited, then
      older, then the smaller id. */
  ghost predicate GoesBefore(cfg: Q.Config, a: Q.Job, b: Q.Job, now: int)
    requires cfg.starvationAfterMs > 0
  {
    var p := cfg.starvationAfterMs;
    var lead := a.priority + (now - a.createdAt) / p - (b.priority + (now - b.createdAt) / p);
    lead > 0 || (lead == 0 && (a.createdAt < b.createdAt || (a.createdAt == b.createdAt && a.id < b.id)))
  }

  /** What a granted claim took and did: a job that fits, ahead of every other that fits, leased to
      the caller under the next token until the lease's end, and answered with its own fields. */
  lemma GrantedClaim(cfg: Q.Config, q: Q.Queue, runnerId: Id, capabilities: set<Id>, labels: set<Id>, now: int, leaseId: Id)
    requires cfg.starvationAfterMs > 0 && Q.WellFormed(q)
    requires Q.Claim(cfg, q, runnerId, capabilities, labels, now, leaseId).1.Some?
    ensures var (next, reply) := Q.Claim(cfg, q, runnerId, capabilities, labels, now, leaseId);
            var swept, claim := Q.Reap(cfg, q, now), reply.value;
            var k := claim.jobId;
            HasFreeSlot(swept, runnerId) && Fits(cfg, swept, k, runnerId, capabilities, labels, now) &&
            (forall j :: Fits(cfg, swept, j, runnerId, capabilities, labels, now) && j != k ==>
                           GoesBefore(cfg, swept.jobs[k], swept.jobs[j], now)) &&
            k in next.jobs && IsLeasedTo(cfg, swept.jobs[k], next.jobs[k], runnerId, now, leaseId) &&
            next == swept.(jobs := swept.jobs[k := next.jobs[k]]) && Describes(claim, next.jobs[k])
  {
    var swept := Q.Reap(cfg, q, now);
    var pick := Q.Pick(cfg, swept, runnerId, capabilities, labels, now);
    R.ReapWellFormed(cfg, q, now);
    FreeSlotIsActive(swept, runnerId);
    PickFits(cfg, swept, runnerId, capabilities, labels, now);
    hide Fits;
    hide HasFreeSlot;
    hide Q.Pick;
    hide Q.Reap;
  }

  ghost predicate IsLeasedTo(cfg: Q.Config, was: Q.Job, job: Q.Job, runnerId: Id, now: int, leaseId: Id) {
    job.state == Leased && job.leaseId == Some(leaseId) && job.leaseOwner == Some(runnerId) &&
    job.leaseExpiresAt == Some(now + cfg.leaseDurationMs) && job.fencingToken == was.fencingToken + 1 && job.updatedAt == now &&
    SameOrder(was, job) && job.availableAt == was.availableAt && job.error == was.error && !job.cancelRequested &&
    job.attempt == was.attempt
  }

  /** What no call changes of a job once it is added. */
  ghost predicate SameOrder(was: Q.Job, job: Q.Job) {
    job.id == was.id && job.runId == was.runId && job.workspaceId == was.workspaceId && job.projectId == was.projectId &&
    job.maxAttempts == was.maxAttempts && job.priority == was.priority && job.createdAt == was.createdAt &&
    job.requiredCapabilities == was.requiredCapabilities && job.labels == was.labels
  }

  /** The answer names the job it is about. */
  ghost predicate Describes(claim: Q.JobClaim, job: Q.Job) {
    claim.jobId == job.id && claim.runId == job.runId && claim.workspaceId == job.workspaceId && claim.projectId == job.projectId &&
    claim.attempt == job.attempt && Some(claim.leaseId) == job.leaseId && Some(claim.leaseOwner) == job.leaseOwner &&
    Some(claim.leaseExpiresAt) == job.leaseExpiresAt && claim.fencingToken == job.fencingToken
  }

  lemma PickFits(cfg: Q.Config, q: Q.Queue, runnerId: Id, capabilities: set<Id>, labels: set<Id>, now: int)
    requires cfg.starvationAfterMs > 0 && Q.WellFormed(q) && Q.Pick(cfg, q, runnerId, capabilities, labels, now).Some?
    ensures var k := Q.Pick(cfg, q, runnerId, capabilities, labels, now).value;
            HasFreeSlot(q, runnerId) && Fits(cfg, q, k, runnerId, capabilities, labels, now) &&
            k in q.jobs && !q.jobs[k].cancelRequested &&
            forall j :: Fits(cfg, q, j, runnerId, capabilities, labels, now) && j != k ==>
              j in q.jobs && GoesBefore(cfg, q.jobs[k], q.jobs[j], now)
  {
    FreeSlotIsActive(q, runnerId);
    var k := Q.Pick(cfg, q, runnerId, capabilities, labels, now).value;
    FitsIsEligible(cfg, q, k, runnerId, capabilities, labels, now);
    hide Q.Eligible;
    hide Fits;
    forall j | Fits(cfg, q, j, runnerId, capabilities, labels, now) && j != k
      ensures j in q.jobs && GoesBefore(cfg, q.jobs[k], q.jobs[j], now)
    {
      FittingIsStored(cfg, q, j, runnerId, capabilities, labels, now);
      FitsIsEligible(cfg, q, j, runnerId, capabilities, labels, now);
    }
  }

  /** A refused claim leaves behind what its sweep leaves. */
  lemma RefusedClaim(cfg: Q.Config, q: Q.Queue, runnerId: Id, capabilities: set<Id>, labels: set<Id>, now: int, leaseId: Id)
    requires cfg.starvationAfterMs > 0 && Q.IdsAgree(q.jobs)
    requires Q.Claim(cfg, q, runnerId, capabilities, labels, now, leaseId).1.None?
    ensures Q.Claim(cfg, q, runnerId, capabilities, labels, now, leaseId).0 == Q.Reap(cfg, q, now)
  {
  }

  // ---- What the sweep does ----

  predicate IsUnleased(job: Q.Job) {
    job.leaseId == None && job.leaseOwner == None && job.leaseExpiresAt == None
  }

  /** The sweep leaves alone every job but those leased until `now` or before, and puts each of
      these back for later while attempts are left and nobody asked to cancel it; otherwise it
      cancels it, or fails it as lost. */
  lemma SweptJobIs(cfg: Q.Config, q: Q.Queue, now: int, id: Id)
    requires Q.WellFormed(q) && id in q.jobs
    ensures id in Q.Reap(cfg, q, now).jobs
    ensures var was, job := q.jobs[id], Q.Reap(cfg, q, now).jobs[id];
            if was.state == Leased && was.leaseExpiresAt.value <= now then
              SameOrder(was, job) && IsUnleased(job) && job.fencingToken == was.fencingToken && job.updatedAt == now &&
              job.cancelRequested == was.cancelRequested && job.availableAt == now + cfg.retryBackoffMs &&
              job.error == Some("RUNNER_LOST") &&
              (was.cancelRequested ==> job.state == Cancelled && job.attempt == was.attempt) &&
              (!was.cancelRequested && was.attempt < was.maxAttempts ==> job.state == Queued && job.attempt == was.attempt + 1) &&
              (!was.cancelRequested && was.attempt >= was.maxAttempts ==> job.state == Failed && job.attempt == was.attempt)
            else job == was
    ensures Q.Reap(cfg, q, now).jobs.Keys == q.jobs.Keys && Q.Reap(cfg, q, now).order == q.order && Q.Reap(cfg, q, now).runners == q.runners
  {
  }

  /** What the sweep reports of a job it recovers: who held it, and where it goes. */
  lemma RecoveryIs(job: Q.Job)
    ensures var r := Q.RecoveryOf(job);
            r.jobId == job.id && r.runId == job.runId && r.previousOwner == job.leaseOwner &&
            (job.cancelRequested ==> !r.requeued && r.nextAttempt == job.attempt && r.phase == Q.PhaseCancelled) &&
            (!job.cancelRequested && job.attempt < job.maxAttempts ==>
               r.requeued && r.nextAttempt == job.attempt + 1 && r.phase == Q.PhaseQueued) &&
            (!job.cancelRequested && job.attempt >= job.maxAttempts ==>
               !r.requeued && r.nextAttempt == job.attempt && r.phase == Q.PhaseRunnerLost)
  {
  }

  /** The sweep reports a recovery of each listed job whose lease ran out, and of no other. */
  lemma {:induction false} RecoveriesAre(jobs: map<Id, Q.Job>, ids: seq<Id>, now: int, r: Q.Recovery)
    requires forall id :: id in jobs ==> Q.JobOk(jobs[id], id)
    ensures r in Q.Recoveries(jobs, ids, now) <==>
            exists id :: id in ids && id in jobs && jobs[id].state == Leased && jobs[id].leaseExpiresAt.Some? &&
                         jobs[id].leaseExpiresAt.value <= now && r == Q.RecoveryOf(jobs[id])
  {
    if ids != [] {
      var front, last := ids[..|ids| - 1], ids[|ids| - 1];
      RecoveriesAre(jobs, front, now, r);
      assert ids == front + [last];
    }
  }

  // ---- What the holder's calls do ----

  /** The caller's lease is the one the job is under, and has time left. */
  ghost predicate HoldsLease(q: Q.Queue, id: Id, leaseId: Id, token: int, clock: int) {
    id in q.jobs && q.jobs[id].state == Leased && q.jobs[id].leaseId == Some(leaseId) && q.jobs[id].fencingToken == token &&
    q.jobs[id].leaseExpiresAt.Some? && clock < q.jobs[id].leaseExpiresAt.value
  }

  lemma CompletedJobIs(q: Q.Queue, id: Id, c: Q.Completion, clock: int)
    ensures Q.Complete(q, id, c, clock).1 <==> HoldsLease(q, id, c.leaseId, c.fencingToken, clock)
    ensures !Q.Complete(q, id, c, clock).1 ==> Q.Complete(q, id, c, clock).0 == q
    ensures Q.Complete(q, id, c, clock).1 ==>
              var next := Q.Complete(q, id, c, clock).0;
              id in next.jobs && next == q.(jobs := q.jobs[id := next.jobs[id]]) &&
              var was, job := q.jobs[id], next.jobs[id];
              SameOrder(was, job) && IsUnleased(job) && job.fencingToken == was.fencingToken && job.attempt == was.attempt &&
              job.cancelRequested == was.cancelRequested && job.availableAt == was.availableAt &&
              job.error == c.error && job.updatedAt == clock &&
              (c.status == Q.ResultCompleted ==> job.state == Completed) &&
              (c.status == Q.ResultCancelled ==> job.state == Cancelled) &&
              (c.status != Q.ResultCompleted && c.status != Q.ResultCancelled ==> job.state == Failed)
  {
  }

  lemma ReleasedJobIs(q: Q.Queue, id: Id, leaseId: Id, token: int, availableAt: int, clock: int)
    ensures var (next, ok) := Q.Release(q, id, leaseId, token, availableAt, clock);
            (ok <==> HoldsLease(q, id, leaseId, token, clock)) && (!ok ==> next == q) &&
            (ok ==> id in next.jobs && next == q.(jobs := q.jobs[id := next.jobs[id]]) &&
                    var was, job := q.jobs[id], next.jobs[id];
                    SameOrder(was, job) && IsUnleased(job) && job.state == Queued && job.availableAt == availableAt &&
                    job.fencingToken == was.fencingToken && job.attempt == was.attempt && job.error == was.error &&
                    job.cancelRequested == was.cancelRequested && job.updatedAt == clock)
  {
  }

  /** A job as it is added: what the caller gave, and the store's own values for what it did not. */
  lemma AddedJobIs(cfg: Q.Config, q: Q.Queue, seed: Q.Seed, clock: int)
    ensures var next := Q.AddJob(cfg, q, seed, clock);
            seed.id in next.jobs && next.jobs == q.jobs[seed.id := next.jobs[seed.id]] && next.runners == q.runners &&
            var job := next.jobs[seed.id];
            job.id == seed.id && job.runId == seed.runId && job.workspaceId == seed.workspaceId && job.projectId == seed.projectId &&
            job.requiredCapabilities == seed.requiredCapabilities && job.labels == seed.labels &&
            job.state == Queued && IsUnleased(job) && job.fencingToken == 0 && !job.cancelRequested && job.error == None &&
            job.updatedAt == clock &&
            (if seed.attempt.Some? then Some(job.attempt) == seed.attempt else job.attempt == 1) &&
            (if seed.maxAttempts.Some? then Some(job.maxAttempts) == seed.maxAttempts else job.maxAttempts == cfg.maxAttempts) &&
            (if seed.priority.Some? then Some(job.priority) == seed.priority else job.priority == 0) &&
            (if seed.availableAt.Some? then Some(job.availableAt) == seed.availableAt else job.availableAt == clock) &&
            (if seed.createdAt.Some? then Some(job.createdAt) == seed.createdAt else job.createdAt == clock)
  {
  }

  // ---- A job that was put back is left alone until its time ----

  /** Not leased, and not before `at` to be taken. */
  ghost predicate RestsUntil(q: Q.Queue, job: Id, at: int) {
    job in q.jobs && q.jobs[job].state != Leased && q.jobs[job].availableAt == at
  }

  lemma CallLeavesResting(cfg: Q.Config, q: Q.Queue, e: Q.Event, job: Id, at: int)
    requires cfg.starvationAfterMs > 0 && Q.WellFormed(q) && RestsUntil(q, job, at)
    requires e.AddJobCall? ==> e.seed.id !in q.jobs
    ensures (exists token :: Grants(cfg, q, e, job, token)) || RestsUntil(Q.Call(cfg, q, e).0, job, at)
  {
    if e.ClaimCall? {
      var reply := Q.Claim(cfg, q, e.runnerId, e.capabilities, e.labels, e.now, e.newLease).1;
      if reply.Some? && reply.value.jobId == job {
        assert Grants(cfg, q, e, job, reply.value.fencingToken);
      }
    }
  }

  lemma GrantOfResting(cfg: Q.Config, q: Q.Queue, e: Q.Event, job: Id, token: nat, at: int)
    requires cfg.starvationAfterMs > 0 && Q.WellFormed(q) && RestsUntil(q, job, at) && Grants(cfg, q, e, job, token)
    ensures e.ClaimCall? && at <= e.now
  {
    GrantedClaim(cfg, q, e.runnerId, e.capabilities, e.labels, e.now, e.newLease);
    SweptJobIs(cfg, q, e.now, job);
  }

  /** A job that is not leased is next granted at its time or later. */
  lemma {:induction false} RestsUntilGranted(cfg: Q.Config, q: Q.Queue, es: seq<Q.Event>, i: nat, j: nat, job: Id, token: nat, at: int)
    requires Legal(cfg, q, es) && i <= j && RestsAt(cfg, q, es, i, job, at) && Granted(cfg, q, es, j, job, token)
    requires forall n, t :: i <= n < j ==> !Granted(cfg, q, es, n, job, t)
    ensures es[j].ClaimCall? && at <= es[j].now
    decreases j - i
  {
    hide *;
    LegalMeans(cfg, q, es);
    GrantedMeans(cfg, q, es, j, job, token);
    StaysWellFormed(cfg, q, es, i);
    RestsAtMeans(cfg, q, es, i, job, at);
    if i == j {
      GrantOfResting(cfg, Run(cfg, q, es, i), es[i], job, token, at);
    } else {
      RestsOn(cfg, q, es, i, job, at);
      RestsUntilGranted(cfg, q, es, i + 1, j, job, token, at);
    }
  }

  ghost predicate RestsAt(cfg: Q.Config, q: Q.Queue, es: seq<Q.Event>, i: nat, job: Id, at: int)
    requires Legal(cfg, q, es)
  {
    i <= |es| && RestsUntil(Run(cfg, q, es, i), job, at)
  }

  lemma RestsAtMeans(cfg: Q.Config, q: Q.Queue, es: seq<Q.Event>, i: nat, job: Id, at: int)
    requires Legal(cfg, q, es) && RestsAt(cfg, q, es, i, job, at)
    ensures i <= |es| && RestsUntil(Run(cfg, q, es, i), job, at)
  {
  }

  lemma RestsOn(cfg: Q.Config, q: Q.Queue, es: seq<Q.Event>, i: nat, job: Id, at: int)
    requires Legal(cfg, q, es) && i < |es| && RestsAt(cfg, q, es, i, job, at)
    requires forall t :: !Granted(cfg, q, es, i, job, t)
    ensures RestsAt(cfg, q, es, i + 1, job, at)
  {
    StaysWellFormed(cfg, q, es, i);
    CallLeavesResting(cfg, Run(cfg, q, es, i), es[i], job, at);
    if token :| Grants(cfg, Run(cfg, q, es, i), es[i], job, token) {
      assert Granted(cfg, q, es, i, job, token);
    }
  }

  /** The call finds the job's lease run out. */
  ghost predicate Recovers(q: Q.Queue, e: Q.Event, job: Id) {
    (e.ClaimCall? || e.ReapCall?) && job in q.jobs && q.jobs[job].state == Leased &&
    q.jobs[job].leaseExpiresAt.Some? && q.jobs[job].leaseExpiresAt.value <= e.now
  }

  lemma RecoveryRests(cfg: Q.Config, q: Q.Queue, e: Q.Event, job: Id)
    requires cfg.starvationAfterMs > 0 && Q.WellFormed(q) && Recovers(q, e, job)
    ensures (exists token :: Grants(cfg, q, e, job, token)) || RestsUntil(Q.Call(cfg, q, e).0, job, e.now + cfg.retryBackoffMs)
    ensures forall token :: Grants(cfg, q, e, job, token) ==> cfg.retryBackoffMs <= 0
  {
    SweptJobIs(cfg, q, e.now, job);
    if e.ClaimCall? {
      hide Q.Reap;
      hide Q.Claim;
      hide HasFreeSlot;
      hide GoesBefore;
      var (next, reply) := Q.Claim(cfg, q, e.runnerId, e.capabilities, e.labels, e.now, e.newLease);
      if reply.None? {
        RefusedClaim(cfg, q, e.runnerId, e.capabilities, e.labels, e.now, e.newLease);
      } else {
        GrantedClaim(cfg, q, e.runnerId, e.capabilities, e.labels, e.now, e.newLease);
        if reply.value.jobId == job {
          assert Grants(cfg, q, e, job, reply.value.fencingToken);
        }
      }
    }
  }

  /** Over every run a job whose lease a sweep recovered is not granted again until the retry
      backoff is over by the claim's clock, not even by the claim that swept. */
  lemma RecoveredJobBacksOff(cfg: Q.Config, q: Q.Queue, es: seq<Q.Event>, i: nat, j: nat, job: Id, token: nat)
    requires Legal(cfg, q, es) && i <= j < |es| && Recovers(Run(cfg, q, es, i), es[i], job) && Granted(cfg, q, es, j, job, token)
    requires forall n, t :: i <= n < j ==> !Granted(cfg, q, es, n, job, t)
    ensures (es[i].ClaimCall? || es[i].ReapCall?) && es[j].ClaimCall? && es[i].now + cfg.retryBackoffMs <= es[j].now
  {
    hide *;
    LegalMeans(cfg, q, es);
    AfterRecovery(cfg, q, es, i, job);
    if i == j {
      GrantedMeans(cfg, q, es, i, job, token);
    } else {
      RestsUntilGranted(cfg, q, es, i + 1, j, job, token, es[i].now + cfg.retryBackoffMs);
    }
  }

  lemma AfterRecovery(cfg: Q.Config, q: Q.Queue, es: seq<Q.Event>, i: nat, job: Id)
    requires Legal(cfg, q, es) && i < |es| && Recovers(Run(cfg, q, es, i), es[i], job)
    ensures es[i].ClaimCall? || es[i].ReapCall?
    ensures (exists t :: Granted(cfg, q, es, i, job, t)) || RestsAt(cfg, q, es, i + 1, job, es[i].now + cfg.retryBackoffMs)
    ensures forall t :: Granted(cfg, q, es, i, job, t) ==> es[i].ClaimCall? && cfg.retryBackoffMs <= 0
  {
    StaysWellFormed(cfg, q, es, i);
    RecoveryRests(cfg, Run(cfg, q, es, i), es[i], job);
    if t :| Grants(cfg, Run(cfg, q, es, i), es[i], job, t) {
      assert Granted(cfg, q, es, i, job, t);
    }
  }

  /** And a job its holder released is not granted again before the time the holder named. */
  lemma ReleasedJobWaits(cfg: Q.Config, q: Q.Queue, es: seq<Q.Event>, i: nat, j: nat, job: Id, token: nat)
    requires Legal(cfg, q, es) && i < j && i < |es| && Granted(cfg, q, es, j, job, token)
    requires es[i].ReleaseCall? && es[i].jobId == job && ReplyAt(cfg, q, es, i) == Q.Answer(true)
    requires forall n, t :: i <= n < j ==> !Granted(cfg, q, es, n, job, t)
    ensures es[j].ClaimCall? && es[i].availableAt <= es[j].now
  {
    var before, e := Run(cfg, q, es, i), es[i];
    ReleasedJobIs(before, job, e.leaseId, e.token, e.availableAt, e.clock);
    assert RestsAt(cfg, q, es, i + 1, job, e.availableAt);
    RestsUntilGranted(cfg, q, es, i + 1, j, job, token, e.availableAt);
  }

  /** Nor is a job that was just added, before the time it was given. */
  lemma AddedJobWaits(cfg: Q.Config, q: Q.Queue, es: seq<Q.Event>, i: nat, j: nat, job: Id, token: nat, at: int)
    requires Legal(cfg, q, es) && i < j && i < |es| && Granted(cfg, q, es, j, job, token)
    requires es[i].AddJobCall? && es[i].seed.id == job && es[i].seed.availableAt == Some(at)
    requires forall n, t :: i <= n < j ==> !Granted(cfg, q, es, n, job, t)
    ensures es[j].ClaimCall? && at <= es[j].now
  {
    AddedJobIs(cfg, Run(cfg, q, es, i), es[i].seed, es[i].clock);
    assert RestsAt(cfg, q, es, i + 1, job, at);
    RestsUntilGranted(cfg, q, es, i + 1, j, job, token, at);
  }
}
