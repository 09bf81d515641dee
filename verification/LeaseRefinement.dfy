/** The in-memory job queue refines the lease machine. */
module LeaseRefinement {
  import opened Wrappers
  import opened LeaseMachine
  import Q = LeaseQueue

  function Abs(job: Q.Job): Cell {
    Cell(job.state, job.fencingToken,
         if job.state.Leased? && job.leaseId.Some? && job.leaseOwner.Some? && job.leaseExpiresAt.Some?
         then Some(Lease(job.leaseId.value, job.leaseOwner.value, job.leaseExpiresAt.value)) else None,
         job.attempt, job.maxAttempts, job.cancelRequested)
  }

  function AbsJobs(jobs: map<Id, Q.Job>): Machine {
    map id | id in jobs :: Abs(jobs[id])
  }

  function GrantOps(cfg: Q.Config, pick: Option<Id>, runnerId: Id, now: int, newLease: Id): seq<Op> {
    match pick
    case None => []
    case Some(id) => [Op.Grant(id, Lease(newLease, runnerId, now + cfg.leaseDurationMs))]
  }

  /** The machine operations one call on the queue amounts to. */
  function OpsOf(cfg: Q.Config, q: Q.Queue, e: Q.Event): seq<Op>
    requires cfg.starvationAfterMs > 0 && Q.IdsAgree(q.jobs)
  {
    match e
    case AddRunnerCall(_, _) => []
    case AddJobCall(seed, clock) => [Op.Submit(seed.id, seed.attempt.GetOr(1), seed.maxAttempts.GetOr(cfg.maxAttempts))]
    case CancelCall(id, _) => [Op.RequestCancel(id)]
    case ClaimCall(runnerId, capabilities, labels, now, newLease) =>
      var pick := Q.Pick(cfg, Q.Reap(cfg, q, now), runnerId, capabilities, labels, now);
      RecoverAll(q.order, now) + GrantOps(cfg, pick, runnerId, now, newLease)
    case RenewCall(id, leaseId, token, expiresAt, clock) => [Op.Renew(id, leaseId, token, clock, expiresAt)]
    case ReleaseCall(id, leaseId, token, _, clock) => [Op.Release(id, leaseId, token, clock)]
    case CompleteCall(id, c, clock) => [Op.Complete(id, c.leaseId, c.fencingToken, clock, Q.StateFor(c.status))]
    case ReapCall(now) => RecoverAll(q.order, now)
  }

  lemma ReapRefines(cfg: Q.Config, q: Q.Queue, now: int)
    requires Q.WellFormed(q)
    ensures Q.WellFormed(Q.Reap(cfg, q, now))
    ensures AbsJobs(Q.Reap(cfg, q, now).jobs) == Exec(AbsJobs(q.jobs), RecoverAll(q.order, now))
  {
    RecoverAllReaps(AbsJobs(q.jobs), q.order, now);
    var jobs, r := Q.Reap(cfg, q, now).jobs, Exec(AbsJobs(q.jobs), RecoverAll(q.order, now));
    forall id | id in jobs ensures Q.JobOk(jobs[id], id) && Abs(jobs[id]) == r[id] {
      ReapedJob(cfg, q.jobs[id], id, now);
    }
  }

  lemma ReapWellFormed(cfg: Q.Config, q: Q.Queue, now: int)
    requires Q.WellFormed(q)
    ensures Q.WellFormed(Q.Reap(cfg, q, now))
  {
  }

  lemma ReapedJob(cfg: Q.Config, job: Q.Job, id: Id, now: int)
    requires Q.JobOk(job, id)
    ensures Q.JobOk(Q.Reaped(cfg, job, now), id)
    ensures Abs(Q.Reaped(cfg, job, now)) == if Lapsed(Abs(job), now) then LeaseMachine.Recovered(Abs(job)) else Abs(job)
  {
  }

  /** Replacing one job by a well-formed one is replacing one cell. */
  lemma UpdateRefines(q: Q.Queue, id: Id, job: Q.Job)
    requires Q.WellFormed(q) && id in q.jobs && Q.JobOk(job, id)
    ensures Q.WellFormed(q.(jobs := q.jobs[id := job]))
    ensures AbsJobs(q.jobs[id := job]) == AbsJobs(q.jobs)[id := Abs(job)]
  {
  }

  lemma OneOp(m: Machine, op: Op)
    ensures Exec(m, [op]) == Apply(m, op)
  {
  }

  lemma AddRefines(cfg: Q.Config, q: Q.Queue, seed: Q.Seed, clock: int)
    requires Q.WellFormed(q) && seed.id !in q.jobs
    ensures Q.WellFormed(Q.AddJob(cfg, q, seed, clock))
    ensures AbsJobs(Q.AddJob(cfg, q, seed, clock).jobs) == AbsJobs(q.jobs)[seed.id := Abs(Q.FreshJob(cfg, seed, clock))]
  {
    var r := Q.AddJob(cfg, q, seed, clock);
    forall id ensures id in r.order <==> id in r.jobs {
      assert id in r.order <==> id in q.order || id == seed.id;
    }
  }

  /** Every call keeps the queue well formed and is a run of machine operations; a claim is a
      reap and then at most one grant, and a boolean answer says whether the one operation was
      enabled. */
  lemma CallRefines(cfg: Q.Config, q: Q.Queue, e: Q.Event)
    requires cfg.starvationAfterMs > 0 && Q.WellFormed(q)
    requires e.AddJobCall? ==> e.seed.id !in q.jobs
    ensures Q.WellFormed(Q.Call(cfg, q, e).0)
    ensures AbsJobs(Q.Call(cfg, q, e).0.jobs) == Exec(AbsJobs(q.jobs), OpsOf(cfg, q, e))
    ensures Q.Call(cfg, q, e).1.Answer? ==>
              Q.Call(cfg, q, e).1.ok == Enabled(AbsJobs(q.jobs), OpsOf(cfg, q, e)[0])
  {
    match e
    case AddRunnerCall(_, _) =>
    case ReapCall(now) => ReapRefines(cfg, q, now);
    case ClaimCall(_, _, _, _, _) => ClaimRefines(cfg, q, e.runnerId, e.capabilities, e.labels, e.now, e.newLease);
    case AddJobCall(seed, clock) =>
      AddRefines(cfg, q, seed, clock);
      OneOp(AbsJobs(q.jobs), OpsOf(cfg, q, e)[0]);
    case _ =>
      OneJobCallRefines(cfg, q, e);
  }

  lemma MatchesMeansHolds(q: Q.Queue, id: Id, leaseId: Id, token: int, clock: int)
    requires Q.WellFormed(q)
    ensures Q.MatchesLease(q, id, leaseId, token, clock) <==>
            id in q.jobs && Holds(AbsJobs(q.jobs)[id], leaseId, token, clock)
  {
  }

  lemma ClaimRefines(cfg: Q.Config, q: Q.Queue, runnerId: Id, capabilities: set<Id>, labels: set<Id>, now: int, newLease: Id)
    requires cfg.starvationAfterMs > 0 && Q.WellFormed(q)
    ensures var next := Q.Claim(cfg, q, runnerId, capabilities, labels, now, newLease).0;
            var pick := Q.Pick(cfg, Q.Reap(cfg, q, now), runnerId, capabilities, labels, now);
            Q.WellFormed(next) && next.order == q.order && next.runners == q.runners &&
            AbsJobs(next.jobs) == Exec(AbsJobs(q.jobs), RecoverAll(q.order, now) + GrantOps(cfg, pick, runnerId, now, newLease))
  {
    ReapRefines(cfg, q, now);
    var reaped := Q.Reap(cfg, q, now);
    var pick := Q.Pick(cfg, reaped, runnerId, capabilities, labels, now);
    TakeRefines(cfg, reaped, pick, runnerId, now, newLease);
    ExecConcat(AbsJobs(q.jobs), RecoverAll(q.order, now), GrantOps(cfg, pick, runnerId, now, newLease));
  }

  lemma TakeRefines(cfg: Q.Config, q: Q.Queue, pick: Option<Id>, runnerId: Id, now: int, leaseId: Id)
    requires Q.WellFormed(q)
    requires pick.Some? ==> pick.value in q.jobs && q.jobs[pick.value].state.Waiting() && !q.jobs[pick.value].cancelRequested
    ensures var next := Q.Take(cfg, q, pick, runnerId, now, leaseId).0;
            Q.WellFormed(next) && next.order == q.order && next.runners == q.runners &&
            AbsJobs(next.jobs) == Exec(AbsJobs(q.jobs), GrantOps(cfg, pick, runnerId, now, leaseId))
  {
    if pick.Some? {
      OneOp(AbsJobs(q.jobs), Op.Grant(pick.value, Lease(leaseId, runnerId, now + cfg.leaseDurationMs)));
      UpdateRefines(q, pick.value, Q.GrantTo(cfg, q.jobs[pick.value], runnerId, now, leaseId));
    }
  }

  lemma TakeWellFormed(cfg: Q.Config, q: Q.Queue, pick: Option<Id>, runnerId: Id, now: int, leaseId: Id)
    requires Q.WellFormed(q)
    requires pick.Some? ==> pick.value in q.jobs && q.jobs[pick.value].state.Waiting() && !q.jobs[pick.value].cancelRequested
    ensures Q.WellFormed(Q.Take(cfg, q, pick, runnerId, now, leaseId).0)
  {
  }

  /** A call by the holder of a lease, or a cancel request, is its one operation or its refusal. */
  lemma OneJobCallRefines(cfg: Q.Config, q: Q.Queue, e: Q.Event)
    requires cfg.starvationAfterMs > 0 && Q.WellFormed(q)
    requires e.CancelCall? || e.RenewCall? || e.ReleaseCall? || e.CompleteCall?
    ensures Q.WellFormed(Q.Call(cfg, q, e).0)
    ensures AbsJobs(Q.Call(cfg, q, e).0.jobs) == Exec(AbsJobs(q.jobs), OpsOf(cfg, q, e))
    ensures Q.Call(cfg, q, e).1.ok == Enabled(AbsJobs(q.jobs), OpsOf(cfg, q, e)[0])
  {
    OneOp(AbsJobs(q.jobs), OpsOf(cfg, q, e)[0]);
    match e
    case CancelCall(id, clock) => CancelRefines(q, id, clock);
    case RenewCall(id, leaseId, token, expiresAt, clock) => RenewRefines(q, id, leaseId, token, expiresAt, clock);
    case ReleaseCall(id, leaseId, token, availableAt, clock) => ReleaseRefines(q, id, leaseId, token, availableAt, clock);
    case CompleteCall(id, c, clock) => CompleteRefines(q, id, c, clock);
  }

  lemma CancelRefines(q: Q.Queue, id: Id, clock: int)
    requires Q.WellFormed(q)
    ensures var r, op := Q.Cancel(q, id, clock), Op.RequestCancel(id);
            Q.WellFormed(r.0) && r.1 == Enabled(AbsJobs(q.jobs), op) && AbsJobs(r.0.jobs) == Apply(AbsJobs(q.jobs), op)
  {
  }

  lemma RenewRefines(q: Q.Queue, id: Id, leaseId: Id, token: int, expiresAt: int, clock: int)
    requires Q.WellFormed(q)
    ensures var r, op := Q.Renew(q, id, leaseId, token, expiresAt, clock), Op.Renew(id, leaseId, token, clock, expiresAt);
            Q.WellFormed(r.0) && r.1 == Enabled(AbsJobs(q.jobs), op) && AbsJobs(r.0.jobs) == Apply(AbsJobs(q.jobs), op)
  {
  }

  lemma ReleaseRefines(q: Q.Queue, id: Id, leaseId: Id, token: int, availableAt: int, clock: int)
    requires Q.WellFormed(q)
    ensures var r, op := Q.Release(q, id, leaseId, token, availableAt, clock), Op.Release(id, leaseId, token, clock);
            Q.WellFormed(r.0) && r.1 == Enabled(AbsJobs(q.jobs), op) && AbsJobs(r.0.jobs) == Apply(AbsJobs(q.jobs), op)
  {
    MatchesMeansHolds(q, id, leaseId, token, clock);
    if Q.MatchesLease(q, id, leaseId, token, clock) {
      UpdateRefines(q, id, Q.ClearLease(q.jobs[id].(state := Queued, availableAt := availableAt, updatedAt := clock)));
    }
  }

  lemma CompleteRefines(q: Q.Queue, id: Id, c: Q.Completion, clock: int)
    requires Q.WellFormed(q)
    ensures var r, op := Q.Complete(q, id, c, clock), Op.Complete(id, c.leaseId, c.fencingToken, clock, Q.StateFor(c.status));
            Q.WellFormed(r.0) && r.1 == Enabled(AbsJobs(q.jobs), op) && AbsJobs(r.0.jobs) == Apply(AbsJobs(q.jobs), op)
  {
    MatchesMeansHolds(q, id, c.leaseId, c.fencingToken, clock);
    if Q.MatchesLease(q, id, c.leaseId, c.fencingToken, clock) {
      UpdateRefines(q, id, Q.ClearLease(q.jobs[id].(state := Q.StateFor(c.status), error := c.error, updatedAt := clock)));
    }
  }
}
