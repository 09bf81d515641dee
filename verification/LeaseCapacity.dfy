/** Slots, quotas and the claim order of the in-memory job queue. */
module LeaseCapacity {
  import opened Wrappers
  import opened LeaseMachine
  import opened LeaseSafety
  import Q = LeaseQueue

  // ---- Capacity in every reachable state ----

  /** No runner holds more leases than it has slots, none that was never registered holds any,
      and no workspace or project is over its quota. */
  ghost predicate WithinCapacity(cfg: Q.Config, q: Q.Queue) {
    (forall r: Id :: |Q.ActiveOn(q.jobs, r)| <= if r in q.runners then Max(0, q.runners[r].slots) else 0) &&
    (forall w: Id :: |Q.ActiveInWorkspace(q.jobs, w)| <= Max(0, cfg.workspaceQuota)) &&
    (forall p: Id :: |Q.ActiveInProject(q.jobs, p)| <= Max(0, cfg.projectQuota))
  }

  /** Registering a runner again never lowers its slots. */
  predicate SlotsKept(q: Q.Queue, e: Q.Event) {
    e.AddRunnerCall? && e.runnerId in q.runners ==> q.runners[e.runnerId].slots <= e.runner.slots
  }

  lemma SubsetSize(a: set<Id>, b: set<Id>)
    requires a <= b
    ensures |a| <= |b|
  {
    assert b == a + (b - a);
  }

  /** Every lease in `after` is a lease in `before`, of the same runner, workspace and project. */
  ghost predicate NoNewLease(before: map<Id, Q.Job>, after: map<Id, Q.Job>) {
    forall id :: id in after && after[id].state.Leased? ==>
      id in before && before[id].state.Leased? && before[id].leaseOwner == after[id].leaseOwner &&
      before[id].workspaceId == after[id].workspaceId && before[id].projectId == after[id].projectId
  }

  lemma ActiveShrinks(before: map<Id, Q.Job>, after: map<Id, Q.Job>, x: Id)
    requires NoNewLease(before, after)
    ensures |Q.ActiveOn(after, x)| <= |Q.ActiveOn(before, x)|
    ensures |Q.ActiveInWorkspace(after, x)| <= |Q.ActiveInWorkspace(before, x)|
    ensures |Q.ActiveInProject(after, x)| <= |Q.ActiveInProject(before, x)|
  {
    SubsetSize(Q.ActiveOn(after, x), Q.ActiveOn(before, x));
    SubsetSize(Q.ActiveInWorkspace(after, x), Q.ActiveInWorkspace(before, x));
    SubsetSize(Q.ActiveInProject(after, x), Q.ActiveInProject(before, x));
  }

  lemma ShrinkingKeepsCapacity(cfg: Q.Config, q: Q.Queue, jobs: map<Id, Q.Job>)
    requires WithinCapacity(cfg, q) && NoNewLease(q.jobs, jobs)
    ensures WithinCapacity(cfg, q.(jobs := jobs))
  {
    forall x: Id
      ensures |Q.ActiveOn(jobs, x)| <= |Q.ActiveOn(q.jobs, x)| &&
              |Q.ActiveInWorkspace(jobs, x)| <= |Q.ActiveInWorkspace(q.jobs, x)| &&
              |Q.ActiveInProject(jobs, x)| <= |Q.ActiveInProject(q.jobs, x)|
    {
      ActiveShrinks(q.jobs, jobs, x);
    }
  }

  lemma OwnersGrowByOne(jobs: map<Id, Q.Job>, id: Id, granted: Q.Job, x: Id)
    requires id in jobs && !jobs[id].state.Leased? && granted.state.Leased?
    ensures |Q.ActiveOn(jobs[id := granted], x)| == |Q.ActiveOn(jobs, x)| + if granted.leaseOwner == Some(x) then 1 else 0
  {
    var before, after := Q.ActiveOn(jobs, x), Q.ActiveOn(jobs[id := granted], x);
    if granted.leaseOwner == Some(x) {
      assert after == before + {id};
    } else {
      assert after == before;
    }
  }

  lemma WorkspacesGrowByOne(jobs: map<Id, Q.Job>, id: Id, granted: Q.Job, x: Id)
    requires id in jobs && !jobs[id].state.Leased? && granted.state.Leased?
    ensures |Q.ActiveInWorkspace(jobs[id := granted], x)| == |Q.ActiveInWorkspace(jobs, x)| + if granted.workspaceId == x then 1 else 0
  {
    var before, after := Q.ActiveInWorkspace(jobs, x), Q.ActiveInWorkspace(jobs[id := granted], x);
    if granted.workspaceId == x {
      assert after == before + {id};
    } else {
      assert after == before;
    }
  }

  lemma ProjectsGrowByOne(jobs: map<Id, Q.Job>, id: Id, granted: Q.Job, x: Id)
    requires id in jobs && !jobs[id].state.Leased? && granted.state.Leased?
    ensures |Q.ActiveInProject(jobs[id := granted], x)| == |Q.ActiveInProject(jobs, x)| + if granted.projectId == Some(x) then 1 else 0
  {
    var before, after := Q.ActiveInProject(jobs, x), Q.ActiveInProject(jobs[id := granted], x);
    if granted.projectId == Some(x) {
      assert after == before + {id};
    } else {
      assert after == before;
    }
  }

  lemma GrantKeepsCapacity(cfg: Q.Config, q: Q.Queue, id: Id, granted: Q.Job, runnerId: Id)
    requires WithinCapacity(cfg, q) && id in q.jobs && !q.jobs[id].state.Leased?
    requires granted.state.Leased? && granted.leaseOwner == Some(runnerId)
    requires runnerId in q.runners && |Q.ActiveOn(q.jobs, runnerId)| < q.runners[runnerId].slots
    requires |Q.ActiveInWorkspace(q.jobs, granted.workspaceId)| < cfg.workspaceQuota
    requires granted.projectId.Some? ==> |Q.ActiveInProject(q.jobs, granted.projectId.value)| < cfg.projectQuota
    ensures WithinCapacity(cfg, q.(jobs := q.jobs[id := granted]))
  {
    var next := q.(jobs := q.jobs[id := granted]);
    forall x: Id
      ensures |Q.ActiveOn(next.jobs, x)| <= (if x in next.runners then Max(0, next.runners[x].slots) else 0) &&
              |Q.ActiveInWorkspace(next.jobs, x)| <= Max(0, cfg.workspaceQuota) &&
              |Q.ActiveInProject(next.jobs, x)| <= Max(0, cfg.projectQuota)
    {
      OwnersGrowByOne(q.jobs, id, granted, x);
      WorkspacesGrowByOne(q.jobs, id, granted, x);
      ProjectsGrowByOne(q.jobs, id, granted, x);
    }
  }

  lemma TakeKeepsCapacity(cfg: Q.Config, q: Q.Queue, runnerId: Id, capabilities: set<Id>, labels: set<Id>, now: int, leaseId: Id)
    requires cfg.starvationAfterMs > 0 && Q.IdsAgree(q.jobs) && WithinCapacity(cfg, q)
    ensures WithinCapacity(cfg, Q.Take(cfg, q, Q.Pick(cfg, q, runnerId, capabilities, labels, now), runnerId, now, leaseId).0)
  {
    var pick := Q.Pick(cfg, q, runnerId, capabilities, labels, now);
    if pick.Some? {
      GrantKeepsCapacity(cfg, q, pick.value, Q.GrantTo(cfg, q.jobs[pick.value], runnerId, now, leaseId), runnerId);
    }
  }

  lemma CallKeepsCapacity(cfg: Q.Config, q: Q.Queue, e: Q.Event)
    requires cfg.starvationAfterMs > 0 && Q.WellFormed(q) && WithinCapacity(cfg, q) && SlotsKept(q, e)
    ensures WithinCapacity(cfg, Q.Call(cfg, q, e).0)
  {
    hide *;
    if e.ClaimCall? {
      ClaimKeepsCapacity(cfg, q, e);
    } else if e.AddRunnerCall? {
      AddRunnerKeepsCapacity(cfg, q, e);
    } else {
      OtherCallsKeepCapacity(cfg, q, e);
    }
  }

  lemma ClaimKeepsCapacity(cfg: Q.Config, q: Q.Queue, e: Q.Event)
    requires cfg.starvationAfterMs > 0 && Q.WellFormed(q) && WithinCapacity(cfg, q) && e.ClaimCall?
    ensures WithinCapacity(cfg, Q.Call(cfg, q, e).0)
  {
    ShrinkingKeepsCapacity(cfg, q, Q.ReapJobs(cfg, q.jobs, e.now));
    TakeKeepsCapacity(cfg, Q.Reap(cfg, q, e.now), e.runnerId, e.capabilities, e.labels, e.now, e.newLease);
  }

  lemma AddRunnerKeepsCapacity(cfg: Q.Config, q: Q.Queue, e: Q.Event)
    requires cfg.starvationAfterMs > 0 && Q.WellFormed(q) && WithinCapacity(cfg, q) && e.AddRunnerCall? && SlotsKept(q, e)
    ensures WithinCapacity(cfg, Q.Call(cfg, q, e).0)
  {
  }

  lemma OtherCallsKeepCapacity(cfg: Q.Config, q: Q.Queue, e: Q.Event)
    requires cfg.starvationAfterMs > 0 && Q.WellFormed(q) && WithinCapacity(cfg, q) && !e.ClaimCall? && !e.AddRunnerCall?
    ensures WithinCapacity(cfg, Q.Call(cfg, q, e).0)
  {
    CallAddsNoLease(cfg, q, e);
    ShrinkingKeepsCapacity(cfg, q, Q.Call(cfg, q, e).0.jobs);
  }

  lemma CallAddsNoLease(cfg: Q.Config, q: Q.Queue, e: Q.Event)
    requires cfg.starvationAfterMs > 0 && Q.WellFormed(q) && !e.ClaimCall?
    ensures NoNewLease(q.jobs, Q.Call(cfg, q, e).0.jobs)
  {
    var next := Q.Call(cfg, q, e).0.jobs;
    if e.ReapCall? {
      ReapAddsNoLease(cfg, q.jobs, e.now);
    } else if e.AddJobCall? {
      WritingAddsNoLease(q.jobs, e.seed.id, Q.FreshJob(cfg, e.seed, e.clock));
    } else if !e.AddRunnerCall? && next != q.jobs {
      WritingAddsNoLease(q.jobs, e.jobId, next[e.jobId]);
    }
  }

  lemma ReapAddsNoLease(cfg: Q.Config, jobs: map<Id, Q.Job>, now: int)
    ensures NoNewLease(jobs, Q.ReapJobs(cfg, jobs, now))
  {
  }

  lemma WritingAddsNoLease(jobs: map<Id, Q.Job>, id: Id, job: Q.Job)
    requires job.state.Leased? ==>
               id in jobs && jobs[id].state.Leased? && jobs[id].leaseOwner == job.leaseOwner &&
               jobs[id].workspaceId == job.workspaceId && jobs[id].projectId == job.projectId
    ensures NoNewLease(jobs, jobs[id := job])
  {
  }

  /** Over every run that never lowers a runner's slots, the leases in force stay within every
      slot count and quota. */
  lemma {:induction false} CapacityHolds(cfg: Q.Config, q: Q.Queue, es: seq<Q.Event>, n: nat)
    requires Legal(cfg, q, es) && WithinCapacity(cfg, q) && n <= |es|
    requires forall i {:trigger Run(cfg, q, es, i)} :: 0 <= i < n ==> SlotsKept(Run(cfg, q, es, i), es[i])
    ensures WithinCapacity(cfg, Run(cfg, q, es, n))
  {
    hide *;
    LegalMeans(cfg, q, es);
    if n == 0 {
      NoCallYet(cfg, q, es);
    } else {
      CapacityHolds(cfg, q, es, n - 1);
      StaysWellFormed(cfg, q, es, n - 1);
      RunStepKeepsCapacity(cfg, q, es, n - 1);
    }
  }

  lemma RunStepKeepsCapacity(cfg: Q.Config, q: Q.Queue, es: seq<Q.Event>, i: nat)
    requires cfg.starvationAfterMs > 0 && Q.IdsAgree(q.jobs) && i < |es|
    requires Q.WellFormed(Run(cfg, q, es, i)) && WithinCapacity(cfg, Run(cfg, q, es, i)) && SlotsKept(Run(cfg, q, es, i), es[i])
    ensures WithinCapacity(cfg, Run(cfg, q, es, i + 1))
  {
    CallKeepsCapacity(cfg, Run(cfg, q, es, i), es[i]);
  }

  /** Registering a runner again keeps capacity exactly when the leases it holds fit its new slots:
      lowering them is the one way over. */
  lemma LoweredSlotsOvercommit(cfg: Q.Config, q: Q.Queue, r: Id, runner: Q.Runner)
    requires WithinCapacity(cfg, q)
    ensures WithinCapacity(cfg, Q.AddRunner(q, r, runner)) <==> |Q.ActiveOn(q.jobs, r)| <= Max(0, runner.slots)
  {
  }

  /** So a runner that holds a lease and registers again with no slots is over them. */
  lemma LeasedRunnerOverSlots(cfg: Q.Config, job: Q.Job, runner: Q.Runner)
    requires cfg.workspaceQuota > 0 && cfg.projectQuota > 0 && runner.slots == 1
    requires job.id == 0 && job.state.Leased? && job.leaseOwner == Some(0) && job.leaseId.Some? && job.leaseExpiresAt.Some?
    ensures var q := Q.Queue([0], map[0 := job], map[0 := runner]);
            Q.WellFormed(q) && WithinCapacity(cfg, q) && !WithinCapacity(cfg, Q.AddRunner(q, 0, runner.(slots := 0)))
  {
    var q := Q.Queue([0], map[0 := job], map[0 := runner]);
    forall x: Id
      ensures |Q.ActiveOn(q.jobs, x)| <= (if x == 0 then 1 else 0) &&
              |Q.ActiveInWorkspace(q.jobs, x)| <= 1 && |Q.ActiveInProject(q.jobs, x)| <= 1
    {
      assert Q.ActiveOn(q.jobs, x) == if x == 0 then {0} else {};
      SubsetSize(Q.ActiveInWorkspace(q.jobs, x), {0});
      SubsetSize(Q.ActiveInProject(q.jobs, x), {0});
    }
    assert Q.ActiveOn(q.jobs, 0) == {0};
    LoweredSlotsOvercommit(cfg, q, 0, runner.(slots := 0));
  }

  // ---- Bounded overtaking ----

  /** Rounding: waiting whole periods less costs at least that many ranks. */
  lemma RankBound(priorityK: int, createdK: int, priorityJ: int, createdJ: int, now: int, period: int)
    requires period > 0 && createdK >= createdJ + (priorityK - priorityJ) * period
    ensures priorityK + (now - createdK) / period <= priorityJ + (now - createdJ) / period
  {
    var shift := priorityK - priorityJ;
    FloorShift(now - createdJ, shift, period);
    FloorMonotone(now - createdK, now - createdJ - shift * period, period);
  }

  lemma MultipleGrows(d: int, period: int)
    requires period > 0
    ensures d >= 1 ==> d * period >= period
    ensures d <= -1 ==> d * period <= -period
    decreases if d < 0 then -d else d
  {
  }

  lemma FloorMonotone(a: int, b: int, period: int)
    requires period > 0 && a <= b
    ensures a / period <= b / period
  {
    var d := a / period - b / period;
    assert a - b == d * period + a % period - b % period;
    MultipleGrows(d, period);
  }

  lemma FloorUnique(a: int, whole: int, rest: int, period: int)
    requires period > 0 && 0 <= rest < period && a == whole * period + rest
    ensures a / period == whole
  {
    var d := a / period - whole;
    assert d * period == rest - a % period;
    MultipleGrows(d, period);
  }

  lemma FloorShift(a: int, shift: int, period: int)
    requires period > 0
    ensures (a - shift * period) / period == a / period - shift
  {
    var whole, rest := a / period, a % period;
    assert a - shift * period == (whole - shift) * period + rest;
    FloorUnique(a - shift * period, whole - shift, rest, period);
  }

  /** The instant before which a job must have been created to ever be taken before `j`. */
  function Horizon(cfg: Q.Config, j: Q.Job, priority: int): int {
    j.createdAt + Max(0, (priority - j.priority) * cfg.starvationAfterMs - 1)
  }

  lemma PreceedingIsOld(cfg: Q.Config, k: Q.Job, j: Q.Job, now: int)
    requires cfg.starvationAfterMs > 0 && Q.Precedes(cfg, k, j, now)
    ensures k.createdAt <= Horizon(cfg, j, k.priority)
  {
    if k.createdAt >= j.createdAt + (k.priority - j.priority) * cfg.starvationAfterMs {
      RankBound(k.priority, k.createdAt, j.priority, j.createdAt, now, cfg.starvationAfterMs);
    }
  }

  /** A younger job can come first at some instant exactly when it is younger by less than its
      priority lead in starvation periods. */
  lemma YoungerPrecedesExactlyWhen(cfg: Q.Config, k: Q.Job, j: Q.Job)
    requires cfg.starvationAfterMs > 0 && j.createdAt < k.createdAt
    ensures (exists now :: Q.Precedes(cfg, k, j, now)) <==>
            k.createdAt < j.createdAt + (k.priority - j.priority) * cfg.starvationAfterMs
  {
    var lead, period := k.priority - j.priority, cfg.starvationAfterMs;
    if k.createdAt < j.createdAt + lead * period {
      var age := k.createdAt - j.createdAt;
      FloorShift(age, lead, period);
      FloorMonotone(age - lead * period, -1, period);
      FloorUnique(-1, -1, period - 1, period);
      FloorUnique(0, 0, 0, period);
      assert Q.Precedes(cfg, k, j, k.createdAt);
    }
    forall now | Q.Precedes(cfg, k, j, now)
      ensures k.createdAt < j.createdAt + lead * period
    {
      PreceedingIsOld(cfg, k, j, now);
    }
  }

  /** The pick comes before every other eligible job in the claim order, and there is one exactly
      when the runner is healthy and has a slot free, some job being eligible. */
  lemma PickIsForemost(cfg: Q.Config, q: Q.Queue, runnerId: Id, capabilities: set<Id>, labels: set<Id>, now: int, j: Id)
    requires cfg.starvationAfterMs > 0 && Q.WellFormed(q) && runnerId in q.runners
    requires Q.Eligible(cfg, q.jobs, j, q.runners[runnerId].capabilities + capabilities, q.runners[runnerId].labels + labels, now)
    ensures var pick := Q.Pick(cfg, q, runnerId, capabilities, labels, now);
            (pick.Some? <==> q.runners[runnerId].health.Healthy? && |Q.ActiveOn(q.jobs, runnerId)| < q.runners[runnerId].slots) &&
            (pick.Some? ==> pick.value == j || Q.Precedes(cfg, q.jobs[pick.value], q.jobs[j], now))
  {
  }

  /** Whenever a claim grants `k` although `j` passed every filter, `k` was created no later than
      `j` or by less than its priority lead in starvation periods after it. */
  lemma OvertakingIsBounded(cfg: Q.Config, q: Q.Queue, runnerId: Id, capabilities: set<Id>, labels: set<Id>, now: int, leaseId: Id, j: Id)
    requires cfg.starvationAfterMs > 0 && Q.WellFormed(q) && runnerId in q.runners
    requires Q.Claim(cfg, q, runnerId, capabilities, labels, now, leaseId).1.Some?
    requires Q.Eligible(cfg, Q.Reap(cfg, q, now).jobs, j, q.runners[runnerId].capabilities + capabilities,
                        q.runners[runnerId].labels + labels, now)
    ensures var k := Q.Claim(cfg, q, runnerId, capabilities, labels, now, leaseId).1.value.jobId;
            k in q.jobs && j in q.jobs && q.jobs[k].createdAt <= Horizon(cfg, q.jobs[j], q.jobs[k].priority)
  {
    hide *;
    IdsOfWellFormed(q);
    var swept := Q.Reap(cfg, q, now);
    var k := Q.Claim(cfg, q, runnerId, capabilities, labels, now, leaseId).1.value.jobId;
    R.ReapWellFormed(cfg, q, now);
    IdsOfWellFormed(swept);
    ClaimTakesPick(cfg, q, runnerId, capabilities, labels, now, leaseId);
    SweepFixesIdentity(cfg, q, now, j);
    SweepFixesIdentity(cfg, q, now, k);
    SweepKeepsRunners(cfg, q, now);
    EligibleIsStored(cfg, swept, j, q.runners[runnerId].capabilities + capabilities, q.runners[runnerId].labels + labels, now);
    PickIsForemost(cfg, swept, runnerId, capabilities, labels, now, j);
    HorizonIsNotBefore(cfg, swept.jobs[j]);
    if k != j {
      PreceedingIsOld(cfg, swept.jobs[k], swept.jobs[j], now);
    }
    HorizonGrows(cfg, swept.jobs[j], q.jobs[j], swept.jobs[k].priority, q.jobs[k].priority);
  }

  lemma IdsOfWellFormed(q: Q.Queue)
    requires Q.WellFormed(q)
    ensures Q.IdsAgree(q.jobs)
  {
  }

  lemma SweepFixesIdentity(cfg: Q.Config, q: Q.Queue, now: int, id: Id)
    ensures var swept := Q.Reap(cfg, q, now);
            (id in swept.jobs <==> id in q.jobs) &&
            (id in q.jobs ==> swept.jobs[id].priority == q.jobs[id].priority && swept.jobs[id].createdAt == q.jobs[id].createdAt)
  {
  }

  lemma SweepKeepsRunners(cfg: Q.Config, q: Q.Queue, now: int)
    ensures Q.Reap(cfg, q, now).runners == q.runners
  {
  }

  lemma EligibleIsStored(cfg: Q.Config, q: Q.Queue, id: Id, capabilities: set<Id>, labels: set<Id>, now: int)
    requires Q.Eligible(cfg, q.jobs, id, capabilities, labels, now)
    ensures id in q.jobs
  {
  }

  lemma HorizonIsNotBefore(cfg: Q.Config, j: Q.Job)
    ensures j.createdAt <= Horizon(cfg, j, j.priority)
  {
  }

  lemma ClaimTakesPick(cfg: Q.Config, q: Q.Queue, runnerId: Id, capabilities: set<Id>, labels: set<Id>, now: int, leaseId: Id)
    requires cfg.starvationAfterMs > 0 && Q.WellFormed(q)
    ensures var swept, claim := Q.Reap(cfg, q, now), Q.Claim(cfg, q, runnerId, capabilities, labels, now, leaseId).1;
            Q.Pick(cfg, swept, runnerId, capabilities, labels, now) == (if claim.Some? then Some(claim.value.jobId) else None)
  {
  }

  // ---- Overtaking over a whole run ----

  /** Priority, creation time and tenant of a job are fixed once it is added. */
  lemma {:induction false} IdentityIsFixed(cfg: Q.Config, q: Q.Queue, es: seq<Q.Event>, i: nat, j: nat, job: Id)
    requires Legal(cfg, q, es) && i <= j <= |es| && job in Run(cfg, q, es, i).jobs
    ensures job in Run(cfg, q, es, j).jobs
    ensures var a, b := Run(cfg, q, es, i).jobs[job], Run(cfg, q, es, j).jobs[job];
            b.priority == a.priority && b.createdAt == a.createdAt
    decreases j - i
  {
    if i < j {
      IdentityIsFixed(cfg, q, es, i, j - 1, job);
      CallFixesIdentity(cfg, Run(cfg, q, es, j - 1), es[j - 1], job);
    }
  }

  lemma CallFixesIdentity(cfg: Q.Config, q: Q.Queue, e: Q.Event, job: Id)
    requires cfg.starvationAfterMs > 0 && Q.IdsAgree(q.jobs) && job in q.jobs
    requires e.AddJobCall? ==> e.seed.id !in q.jobs
    ensures job in Q.Call(cfg, q, e).0.jobs
    ensures Q.Call(cfg, q, e).0.jobs[job].priority == q.jobs[job].priority
    ensures Q.Call(cfg, q, e).0.jobs[job].createdAt == q.jobs[job].createdAt
  {
  }

  /** Every priority ever submitted is at most `top`. */
  ghost predicate PrioritiesAtMost(q: Q.Queue, es: seq<Q.Event>, top: int) {
    (forall id :: id in q.jobs ==> q.jobs[id].priority <= top) &&
    (forall i :: 0 <= i < |es| && es[i].AddJobCall? ==> es[i].seed.priority.GetOr(0) <= top)
  }

  lemma {:induction false} PrioritiesStay(cfg: Q.Config, q: Q.Queue, es: seq<Q.Event>, top: int, n: nat, id: Id)
    requires Legal(cfg, q, es) && PrioritiesAtMost(q, es, top) && n <= |es| && id in Run(cfg, q, es, n).jobs
    ensures Run(cfg, q, es, n).jobs[id].priority <= top
  {
    if n > 0 {
      var before := Run(cfg, q, es, n - 1);
      if id in before.jobs {
        PrioritiesStay(cfg, q, es, top, n - 1, id);
        CallFixesIdentity(cfg, before, es[n - 1], id);
      } else {
        NewJobsAreAdded(cfg, before, es[n - 1], id);
      }
    }
  }

  lemma NewJobsAreAdded(cfg: Q.Config, q: Q.Queue, e: Q.Event, id: Id)
    requires cfg.starvationAfterMs > 0 && Q.IdsAgree(q.jobs)
    requires id in Q.Call(cfg, q, e).0.jobs && id !in q.jobs
    ensures e.AddJobCall? && e.seed.id == id && Q.Call(cfg, q, e).0.jobs[id].priority == e.seed.priority.GetOr(0)
  {
  }

  /** The claim could have granted `j`: with lapsed leases recovered, `j` passes every filter. */
  ghost predicate CouldGrant(cfg: Q.Config, q: Q.Queue, e: Q.Event, j: Id) {
    e.ClaimCall? && e.runnerId in q.runners &&
    Q.Eligible(cfg, Q.Reap(cfg, q, e.now).jobs, j, q.runners[e.runnerId].capabilities + e.capabilities,
               q.runners[e.runnerId].labels + e.labels, e.now)
  }

  lemma PassingJobIsOld(cfg: Q.Config, q: Q.Queue, e: Q.Event, k: Id, token: nat, j: Id)
    requires cfg.starvationAfterMs > 0 && Q.WellFormed(q)
    requires Grants(cfg, q, e, k, token) && CouldGrant(cfg, q, e, j)
    ensures k in q.jobs && j in q.jobs && q.jobs[k].createdAt <= Horizon(cfg, q.jobs[j], q.jobs[k].priority)
  {
    OvertakingIsBounded(cfg, q, e.runnerId, e.capabilities, e.labels, e.now, e.newLease, j);
  }

  /** Over a whole run, once `j` is in the store only jobs created up to one fixed instant are
      ever granted by a claim that could have granted `j`. */
  lemma OnlyOldJobsPass(cfg: Q.Config, q: Q.Queue, es: seq<Q.Event>, top: int, from: nat, i: nat, j: Id, k: Id, token: nat)
    requires Legal(cfg, q, es) && PrioritiesAtMost(q, es, top)
    requires from <= i < |es| && j in Run(cfg, q, es, from).jobs
    requires Granted(cfg, q, es, i, k, token) && CouldGrant(cfg, Run(cfg, q, es, i), es[i], j)
    ensures k in Run(cfg, q, es, i).jobs
    ensures Run(cfg, q, es, i).jobs[k].createdAt <= Horizon(cfg, Run(cfg, q, es, from).jobs[j], top)
  {
    StaysWellFormed(cfg, q, es, i);
    PassingJobIsOld(cfg, Run(cfg, q, es, i), es[i], k, token, j);
    HorizonFixed(cfg, q, es, top, from, i, j, k);
  }

  lemma HorizonFixed(cfg: Q.Config, q: Q.Queue, es: seq<Q.Event>, top: int, from: nat, i: nat, j: Id, k: Id)
    requires Legal(cfg, q, es) && PrioritiesAtMost(q, es, top)
    requires from <= i <= |es| && j in Run(cfg, q, es, from).jobs && k in Run(cfg, q, es, i).jobs
    ensures j in Run(cfg, q, es, i).jobs
    ensures Horizon(cfg, Run(cfg, q, es, i).jobs[j], Run(cfg, q, es, i).jobs[k].priority) <=
            Horizon(cfg, Run(cfg, q, es, from).jobs[j], top)
  {
    PrioritiesStay(cfg, q, es, top, i, k);
    IdentityIsFixed(cfg, q, es, from, i, j);
    HorizonGrows(cfg, Run(cfg, q, es, i).jobs[j], Run(cfg, q, es, from).jobs[j], Run(cfg, q, es, i).jobs[k].priority, top);
  }

  lemma HorizonGrows(cfg: Q.Config, j: Q.Job, same: Q.Job, a: int, b: int)
    requires cfg.starvationAfterMs > 0 && a <= b && same.priority == j.priority && same.createdAt == j.createdAt
    ensures Horizon(cfg, j, a) <= Horizon(cfg, same, b)
  {
  }
}
