/** The in-memory execution store: a job map, a runner map and the schedules, changed in place
    by every call. Each method is tied to the value-level call it makes. */
module InMemoryStore {
  import opened Wrappers
  import opened LeaseMachine
  import opened ScheduleBoard
  import Q = LeaseQueue
  import R = LeaseRefinement

  class InMemoryExecutionStore {
    const cfg: Q.Config
    var jobs: map<Id, Q.Job>
    var order: seq<Id>
    var runners: map<Id, Q.Runner>
    var schedules: map<Id, Schedule>
    var scheduledResults: map<Occurrence, Ticket>
    /** Every id drawn so far and every job's is below this one. */
    var nextUuid: Id

    ghost function Queue(): Q.Queue
      reads this
    {
      Q.Queue(order, jobs, runners)
    }

    ghost function Board(): Board
      reads this
    {
      ScheduleBoard.Board(schedules, scheduledResults)
    }

    ghost predicate Valid()
      reads this
    {
      cfg.starvationAfterMs > 0 && Q.WellFormed(Queue()) && Q.Distinct(order) &&
      forall id :: id in jobs ==> id < nextUuid
    }

    constructor (cfg: Q.Config)
      requires cfg.starvationAfterMs > 0
      ensures Valid() && this.cfg == cfg
      ensures Queue() == Q.Queue([], map[], map[]) && Board() == ScheduleBoard.Board(map[], map[])
    {
      this.cfg := cfg;
      jobs, order, runners := map[], [], map[];
      schedules, scheduledResults := map[], map[];
      nextUuid := 0;
    }

    method AddRunner(id: Id, runner: Q.Runner)
      requires Valid()
      modifies this`runners
      ensures Valid() && Queue() == Q.AddRunner(old(Queue()), id, runner)
    {
      runners := runners[id := runner];
    }

    method AddJob(seed: Q.Seed, clock: int)
      requires Valid()
      modifies this`jobs, this`order, this`nextUuid
      ensures Valid() && Queue() == Q.AddJob(cfg, old(Queue()), seed, clock) && nextUuid >= old(nextUuid)
    {
      if seed.id !in jobs {
        order := order + [seed.id];
      }
      jobs := jobs[seed.id := Q.FreshJob(cfg, seed, clock)];
      nextUuid := Max(nextUuid, seed.id + 1);
    }

    method RandomUuid() returns (id: Id)
      requires Valid()
      modifies this`nextUuid
      ensures Valid() && id !in jobs && old(nextUuid) <= id < nextUuid
    {
      id := nextUuid;
      nextUuid := nextUuid + 1;
    }

    method RequestCancellation(id: Id, clock: int) returns (found: bool)
      requires Valid()
      modifies this`jobs
      ensures Valid() && (Queue(), found) == Q.Cancel(old(Queue()), id, clock)
    {
      if id !in jobs {
        return false;
      }
      R.CancelRefines(Queue(), id, clock);
      var job := jobs[id].(cancelRequested := true);
      if job.state.Waiting() {
        job := job.(state := Cancelled);
      }
      jobs := jobs[id := job.(updatedAt := clock)];
      return true;
    }

    method ClaimJob(runnerId: Id, capabilities: set<Id>, labels: set<Id>, now: int)
      returns (claim: Option<Q.JobClaim>, ghost leaseId: Id)
      requires Valid()
      modifies this`jobs, this`nextUuid
      ensures Valid() && (Queue(), claim) == Q.Claim(cfg, old(Queue()), runnerId, capabilities, labels, now, leaseId)
      ensures claim.Some? ==> old(nextUuid) <= leaseId < nextUuid
    {
      leaseId := nextUuid;
      var _ := ReapExpiredLeases(now);
      ghost var pick := Q.Pick(cfg, Queue(), runnerId, capabilities, labels, now);
      if runnerId !in runners || !runners[runnerId].health.Healthy? {
        assert pick == None;
        return None, leaseId;
      }
      var runner := runners[runnerId];
      if |Q.ActiveOn(jobs, runnerId)| >= runner.slots {
        assert pick == None;
        return None, leaseId;
      }
      var candidate := Q.Foremost(cfg, jobs, order, runner.capabilities + capabilities, runner.labels + labels, now);
      assert pick == candidate;
      if candidate.None? {
        return None, leaseId;
      }
      claim, leaseId := Lease(candidate.value, runnerId, now);
    }

    method Lease(id: Id, runnerId: Id, now: int) returns (claim: Option<Q.JobClaim>, ghost leaseId: Id)
      requires Valid() && id in jobs && jobs[id].state.Waiting() && !jobs[id].cancelRequested
      modifies this`jobs, this`nextUuid
      ensures Valid() && (Queue(), claim) == Q.Take(cfg, old(Queue()), Some(id), runnerId, now, leaseId)
      ensures old(nextUuid) <= leaseId < nextUuid
    {
      var lease := RandomUuid();
      R.TakeWellFormed(cfg, Queue(), Some(id), runnerId, now, lease);
      var job := jobs[id].(state := Leased, leaseId := Some(lease), leaseOwner := Some(runnerId));
      job := job.(leaseExpiresAt := Some(now + cfg.leaseDurationMs), fencingToken := job.fencingToken + 1, updatedAt := now);
      assert job == Q.GrantTo(cfg, jobs[id], runnerId, now, lease);
      jobs := jobs[id := job];
      claim, leaseId := Some(Q.ClaimOf(job, lease, runnerId, now + cfg.leaseDurationMs)), lease;
    }

    method RenewLease(id: Id, leaseId: Id, fencingToken: int, expiresAt: int, clock: int) returns (renewed: bool)
      requires Valid()
      modifies this`jobs
      ensures Valid() && (Queue(), renewed) == Q.Renew(old(Queue()), id, leaseId, fencingToken, expiresAt, clock)
    {
      if !Q.MatchesLease(Q.Queue(order, jobs, runners), id, leaseId, fencingToken, clock) {
        return false;
      }
      R.RenewRefines(Queue(), id, leaseId, fencingToken, expiresAt, clock);
      var job := jobs[id].(leaseExpiresAt := Some(expiresAt));
      jobs := jobs[id := job.(updatedAt := clock)];
      return true;
    }

    method ReleaseJob(id: Id, leaseId: Id, fencingToken: int, availableAt: int, clock: int) returns (released: bool)
      requires Valid()
      modifies this`jobs
      ensures Valid() && (Queue(), released) == Q.Release(old(Queue()), id, leaseId, fencingToken, availableAt, clock)
    {
      if !Q.MatchesLease(Q.Queue(order, jobs, runners), id, leaseId, fencingToken, clock) {
        return false;
      }
      R.ReleaseRefines(Queue(), id, leaseId, fencingToken, availableAt, clock);
      var job := jobs[id].(state := Queued, availableAt := availableAt);
      job := Q.ClearLease(job);
      jobs := jobs[id := job.(updatedAt := clock)];
      return true;
    }

    method CompleteJob(id: Id, completion: Q.Completion, clock: int) returns (completed: bool)
      requires Valid()
      modifies this`jobs
      ensures Valid() && (Queue(), completed) == Q.Complete(old(Queue()), id, completion, clock)
    {
      if !Q.MatchesLease(Q.Queue(order, jobs, runners), id, completion.leaseId, completion.fencingToken, clock) {
        return false;
      }
      R.CompleteRefines(Queue(), id, completion, clock);
      var job := jobs[id].(state := Q.StateFor(completion.status), error := completion.error, updatedAt := clock);
      jobs := jobs[id := Q.ClearLease(job)];
      return true;
    }

    method ReapExpiredLeases(now: int) returns (recovered: seq<Q.Recovery>)
      requires Valid()
      modifies this`jobs
      ensures Valid() && Queue() == Q.Reap(cfg, old(Queue()), now)
      ensures recovered == Q.Recoveries(old(jobs), order, now)
    {
      recovered := RecoverLapsed(now);
      R.ReapWellFormed(cfg, old(Queue()), now);
    }

    method RecoverLapsed(now: int) returns (recovered: seq<Q.Recovery>)
      requires Valid()
      modifies this`jobs
      ensures jobs == Q.ReapJobs(cfg, old(jobs), now)
      ensures recovered == Q.Recoveries(old(jobs), order, now)
    {
      recovered := [];
      ghost var before := jobs;
      assert Q.Distinct(order) && forall k :: 0 <= k < |order| ==> order[k] in before;
      SweepBegins(cfg, before, order, now);
      for i := 0 to |order|
        invariant jobs == Swept(cfg, before, order[..i], now)
        invariant recovered == Q.Recoveries(before, order[..i], now)
      {
        hide *;
        SweptStep(cfg, before, order, i, now);
        var id := order[i];
        if Q.LeaseHasLapsed(jobs[id], now) {
          var recovery := RecoverJob(id, now);
          recovered := recovered + [recovery];
        }
      }
      assert order[..|order|] == order;
      assert jobs == Q.ReapJobs(cfg, before, now);
    }

    method RecoverJob(id: Id, now: int) returns (recovery: Q.Recovery)
      requires id in jobs
      modifies this`jobs
      ensures jobs == old(jobs)[id := Q.RecoverJob(cfg, old(jobs)[id], now)]
      ensures recovery == Q.RecoveryOf(old(jobs)[id])
    {
      var job := jobs[id];
      var previousOwner := job.leaseOwner;
      var requeued := !job.cancelRequested && job.attempt < job.maxAttempts;
      if requeued {
        job := job.(attempt := job.attempt + 1, state := Queued);
      } else {
        job := job.(state := if job.cancelRequested then Cancelled else Failed);
      }
      job := job.(availableAt := now + cfg.retryBackoffMs, error := Some("RUNNER_LOST"), updatedAt := now);
      jobs := jobs[id := Q.ClearLease(job)];
      recovery := Q.Recovery(job.id, job.runId, previousOwner, requeued, job.attempt,
                             if requeued then Q.PhaseQueued else if job.cancelRequested then Q.PhaseCancelled else Q.PhaseRunnerLost);
    }

    method AddSchedule(id: Id, schedule: Schedule)
      requires Valid()
      modifies this`schedules
      ensures Valid() && Board() == old(Board()).(schedules := old(schedules)[id := schedule])
    {
      schedules := schedules[id := schedule];
    }

    method AdvanceSchedule(id: Id, expected: int, next: int) returns (advanced: bool)
      requires Valid()
      modifies this`schedules
      ensures Valid() && (Board(), advanced) == Advance(old(Board()), id, expected, next)
    {
      if id !in schedules || schedules[id].nextRunAt != expected {
        return false;
      }
      schedules := schedules[id := schedules[id].(nextRunAt := next)];
      return true;
    }

    /** Whatever ids the run and the job get, the job's is new to the store; a job is added
        exactly when the occurrence is enqueued for the first time. */
    method EnqueueScheduledRun(id: Id, request: Request, dueAt: int, next: int, clock: int)
      returns (ticket: Option<Ticket>, ghost runId: Id, ghost jobId: Id)
      requires Valid()
      modifies this`jobs, this`order, this`schedules, this`scheduledResults, this`nextUuid
      ensures Valid() && jobId !in old(jobs)
      ensures (Board(), ticket) == Enqueue(old(Board()), id, dueAt, next, runId, jobId)
      ensures Queue() == if ticket.Some? && !ticket.value.duplicate
                         then Q.AddJob(cfg, old(Queue()), SeedFor(request, dueAt, runId, jobId), clock) else old(Queue())
      ensures ticket.Some? && !ticket.value.duplicate ==>
                old(nextUuid) <= ticket.value.runId < nextUuid && old(nextUuid) <= ticket.value.jobId < nextUuid &&
                ticket.value.runId != ticket.value.jobId
    {
      hide Q.AddJob;
      runId, jobId := nextUuid, nextUuid;
      if (id, dueAt) in scheduledResults {
        return Some(scheduledResults[(id, dueAt)].(duplicate := true)), runId, jobId;
      }
      if id !in schedules || schedules[id].nextRunAt != dueAt {
        return None, runId, jobId;
      }
      var advanced := AdvanceSchedule(id, dueAt, next);
      if !advanced {
        return None, runId, jobId;
      }
      var newRun := RandomUuid();
      var newJob := RandomUuid();
      runId, jobId := newRun, newJob;
      AddJob(SeedFor(request, dueAt, newRun, newJob), clock);
      var result := Ticket(newRun, newJob, false);
      scheduledResults := scheduledResults[(id, dueAt) := result];
      ticket := Some(result);
    }
  }

  /** The job map once the reaper has visited `ids`. */
  function Swept(cfg: Q.Config, jobs: map<Id, Q.Job>, ids: seq<Id>, now: int): map<Id, Q.Job> {
    map id | id in jobs :: if id in ids then Q.Reaped(cfg, jobs[id], now) else jobs[id]
  }

  lemma SweepBegins(cfg: Q.Config, jobs: map<Id, Q.Job>, ids: seq<Id>, now: int)
    ensures Swept(cfg, jobs, ids[..0], now) == jobs && Q.Recoveries(jobs, ids[..0], now) == []
  {
  }

  /** Visiting one more job recovers it if its lease has lapsed, and does nothing else. */
  lemma SweptStep(cfg: Q.Config, jobs: map<Id, Q.Job>, ids: seq<Id>, i: nat, now: int)
    requires Q.Distinct(ids) && i < |ids| && forall k :: 0 <= k < |ids| ==> ids[k] in jobs
    ensures var id, before, after := ids[i], Swept(cfg, jobs, ids[..i], now), Swept(cfg, jobs, ids[..i + 1], now);
            id in jobs && id in before && before[id] == jobs[id] &&
            after == (if Q.LeaseHasLapsed(jobs[id], now) then before[id := Q.RecoverJob(cfg, jobs[id], now)] else before) &&
            Q.Recoveries(jobs, ids[..i + 1], now) ==
            Q.Recoveries(jobs, ids[..i], now) + if Q.LeaseHasLapsed(jobs[id], now) then [Q.RecoveryOf(jobs[id])] else []
  {
    assert ids[..i + 1][..i] == ids[..i];
    assert forall id :: id in ids[..i + 1] <==> id in ids[..i] || id == ids[i];
    assert ids[i] !in ids[..i];
  }

  function SeedFor(request: Request, dueAt: int, runId: Id, jobId: Id): Q.Seed {
    Q.Seed(jobId, runId, request.workspaceId, request.projectId, None, None, Some(request.priority.GetOr(0)),
           Some(dueAt), request.requiredCapabilities, request.labels, None)
  }
}
