/** The claim order and the runner slots of the Postgres store. */
module PostgresOrder {
  import opened Wrappers
  import opened LeaseMachine
  import opened PostgresRefinement
  import opened PostgresRuns
  import C = LeaseCapacity
  import P = PostgresStore

  // ---- Bounded overtaking ----

  /** The query counts waiting time from zero and in periods of a second or more. */
  function Period(cfg: P.Config): (p: int)
    ensures p >= 1000
  {
    Max(1000, cfg.starvationAfterMs)
  }

  /** The instant before which `k` must have been created to pass `j` at a clock that is not
      behind `k`'s own creation. */
  function Horizon(cfg: P.Config, j: P.JobRow, priority: int): int {
    j.createdAt + Max(0, (priority - j.priority) * Period(cfg) - 1)
  }

  lemma PreceedingIsOld(cfg: P.Config, db: P.Db, k: Id, j: Id, now: int)
    requires k in db.jobs && j in db.jobs && db.jobs[k].createdAt <= now && P.Before(cfg, db, k, j, now)
    ensures db.jobs[k].createdAt <= Horizon(cfg, db.jobs[j], db.jobs[k].priority)
  {
    var a, b := db.jobs[k], db.jobs[j];
    if a.createdAt > b.createdAt && a.createdAt >= b.createdAt + (a.priority - b.priority) * Period(cfg) {
      C.RankBound(a.priority, a.createdAt, b.priority, b.createdAt, now, Period(cfg));
    }
  }

  /** Once both jobs exist by the claim's clock, a younger job comes first at some instant exactly
      when it is younger by less than its priority lead in periods. */
  lemma YoungerPrecedesExactlyWhen(cfg: P.Config, db: P.Db, k: Id, j: Id)
    requires k in db.jobs && j in db.jobs && db.jobs[j].createdAt < db.jobs[k].createdAt
    ensures (exists now :: db.jobs[k].createdAt <= now && P.Before(cfg, db, k, j, now)) <==>
            db.jobs[k].createdAt < db.jobs[j].createdAt + (db.jobs[k].priority - db.jobs[j].priority) * Period(cfg)
  {
    var a, b := db.jobs[k], db.jobs[j];
    var lead, age := a.priority - b.priority, a.createdAt - b.createdAt;
    if age < lead * Period(cfg) {
      ShortOfLead(age, lead, Period(cfg));
      assert P.Before(cfg, db, k, j, a.createdAt);
    }
    forall now | a.createdAt <= now && P.Before(cfg, db, k, j, now)
      ensures age < lead * Period(cfg)
    {
      PreceedingIsOld(cfg, db, k, j, now);
    }
  }

  lemma ShortOfLead(age: int, lead: int, period: int)
    requires period > 0 && age < lead * period
    ensures age / period < lead && 0 / period == 0
  {
    C.FloorShift(age, lead, period);
    C.FloorMonotone(age - lead * period, -1, period);
    C.FloorUnique(-1, -1, period - 1, period);
    C.FloorUnique(0, 0, 0, period);
  }

  /** A claim whose clock is behind both creations compares priorities alone, so there a job passes
      one of lower priority however much later it came. */
  lemma SlowClockIgnoresAge(cfg: P.Config, db: P.Db, k: Id, j: Id, now: int)
    requires k in db.jobs && j in db.jobs && now <= db.jobs[j].createdAt < db.jobs[k].createdAt
    ensures P.Before(cfg, db, k, j, now) <==> db.jobs[k].priority > db.jobs[j].priority
  {
    C.FloorUnique(0, 0, 0, Period(cfg));
  }

  /** Whenever a claim takes `k` although `j` was a candidate no one held, `k` was created no later
      than `j`, or after it by less than its priority lead in periods, or after the claim's clock. */
  lemma OvertakingIsBounded(cfg: P.Config, db: P.Db, t: Txn, j: Id, k: Id)
    requires t.ClaimTxn? && Claimed(cfg, db, t) == Some(k) && j !in t.locked
    requires j in P.Candidates(cfg, db, t.runnerId, t.capabilities, t.labels, t.now)
    ensures k in db.jobs && j in db.jobs
    ensures db.jobs[k].createdAt <= Horizon(cfg, db.jobs[j], db.jobs[k].priority) || t.now < db.jobs[k].createdAt
  {
    if k != j && db.jobs[k].createdAt <= t.now {
      PreceedingIsOld(cfg, db, k, j, t.now);
    }
  }

  // ---- Slots ----

  /** No runner holds more leases than it has slots. */
  ghost predicate WithinSlots(db: P.Db) {
    forall r :: |P.HeldBy(db, r)| <= SlotsOf(db, r)
  }

  function SlotsOf(db: P.Db, r: Id): int {
    if r in db.runners then Max(0, db.runners[r].slots) else 0
  }

  /** Every lease in `next` is one in `db`, of the same runner, and the runners are the same. */
  ghost predicate NoNewLease(db: P.Db, next: P.Db) {
    next.runners == db.runners &&
    forall id :: id in next.jobs && next.jobs[id].state.Leased? ==>
      id in db.jobs && db.jobs[id].state.Leased? && db.jobs[id].leaseOwner == next.jobs[id].leaseOwner
  }

  lemma ShrinkingKeepsSlots(db: P.Db, next: P.Db)
    requires WithinSlots(db) && NoNewLease(db, next)
    ensures WithinSlots(next)
  {
    forall r ensures |P.HeldBy(next, r)| <= SlotsOf(next, r) {
      C.SubsetSize(P.HeldBy(next, r), P.HeldBy(db, r));
      assert |P.HeldBy(db, r)| <= SlotsOf(db, r);
    }
  }

  lemma {:induction false} ReapAddsNoLease(cfg: P.Config, db: P.Db, ids: seq<Id>, now: int)
    ensures NoNewLease(db, P.Reap(cfg, db, ids, now))
  {
    if ids != [] {
      ReapAddsNoLease(cfg, db, ids[..|ids| - 1], now);
    }
  }

  lemma ClaimKeepsSlots(cfg: P.Config, db: P.Db, t: Txn)
    requires RowsOk(db) && WithinSlots(db) && t.ClaimTxn?
    ensures WithinSlots(Step(cfg, db, t))
  {
    var pick, next := Claimed(cfg, db, t), Step(cfg, db, t);
    if pick.Some? {
      forall r ensures |P.HeldBy(next, r)| <= SlotsOf(next, r) {
        assert |P.HeldBy(db, r)| <= SlotsOf(db, r);
        GrantAddsOne(cfg, db, pick.value, t.runnerId, t.now, t.newLease, r);
      }
    }
  }

  lemma GrantAddsOne(cfg: P.Config, db: P.Db, id: Id, runnerId: Id, now: int, leaseId: Id, r: Id)
    requires id in db.jobs && db.jobs[id].runId in db.runs && !db.jobs[id].state.Leased?
    ensures var next := P.Claim(cfg, db, Some(id), runnerId, now, leaseId);
            next.runners == db.runners && |P.HeldBy(next, r)| == |P.HeldBy(db, r)| + if r == runnerId then 1 else 0
  {
    var next := P.Claim(cfg, db, Some(id), runnerId, now, leaseId);
    var held := P.HeldBy(db, r);
    if r == runnerId {
      assert P.HeldBy(next, r) == held + {id};
    } else {
      assert P.HeldBy(next, r) == held;
    }
  }

  lemma OtherTxnAddsNoLease(cfg: P.Config, db: P.Db, t: Txn)
    requires RowsOk(db) && Fits(db, t) && !t.ClaimTxn?
    ensures NoNewLease(db, Step(cfg, db, t))
  {
    if t.ReapTxn? {
      ReapAddsNoLease(cfg, db, t.ids, t.now);
    } else if t.CreateTxn? {
      hide *;
      CreateAddsNoLease(cfg, db, t);
    } else if t.CancelTxn? {
      hide *;
      CancelAddsNoLease(cfg, db, t);
    } else {
      hide *;
      LeaseCallAddsNoLease(cfg, db, t);
    }
  }

  lemma CreateAddsNoLease(cfg: P.Config, db: P.Db, t: Txn)
    requires Fits(db, t) && t.CreateTxn?
    ensures NoNewLease(db, Step(cfg, db, t))
  {
  }

  lemma CancelAddsNoLease(cfg: P.Config, db: P.Db, t: Txn)
    requires t.CancelTxn?
    ensures NoNewLease(db, Step(cfg, db, t))
  {
  }

  lemma LeaseCallAddsNoLease(cfg: P.Config, db: P.Db, t: Txn)
    requires RowsOk(db) && Fits(db, t) && (t.RenewTxn? || t.ReleaseTxn? || t.CompleteTxn? || t.EventTxn?)
    ensures NoNewLease(db, Step(cfg, db, t))
  {
    hide RowsOk;
    var next := Step(cfg, db, t);
    if t.RenewTxn? && next != db {
      WritingAddsNoLease(db, t.job, next.jobs[t.job], next);
    } else if (t.ReleaseTxn? || t.CompleteTxn?) && next != db {
      WritingAddsNoLease(db, t.job, next.jobs[t.job], next);
    }
  }

  lemma WritingAddsNoLease(db: P.Db, id: Id, job: P.JobRow, next: P.Db)
    requires id in db.jobs && next.jobs == db.jobs[id := job] && next.runners == db.runners
    requires job.state.Leased? ==> db.jobs[id].state.Leased? && job.leaseOwner == db.jobs[id].leaseOwner
    ensures NoNewLease(db, next)
  {
  }

  lemma StepKeepsSlots(cfg: P.Config, db: P.Db, t: Txn)
    requires RowsOk(db) && Fits(db, t) && WithinSlots(db)
    ensures WithinSlots(Step(cfg, db, t))
  {
    hide *;
    if t.ClaimTxn? {
      ClaimKeepsSlots(cfg, db, t);
    } else {
      OtherTxnAddsNoLease(cfg, db, t);
      ShrinkingKeepsSlots(db, Step(cfg, db, t));
    }
  }

  /** Over every run of transactions no runner holds more leases than it has slots: the claim holds
      the runner's row, so claims by one runner are one after another. */
  lemma {:induction false} SlotsHold(cfg: P.Config, r: Trace, n: nat)
    requires IsRun(cfg, r) && n <= |r.ts| && WithinSlots(r.dbs[0])
    ensures WithinSlots(r.dbs[n])
  {
    if n > 0 {
      SlotsHold(cfg, r, n - 1);
      StaysConsistent(cfg, r, n - 1);
      assert StepsAt(cfg, r, n - 1);
      StepKeepsSlots(cfg, r.dbs[n - 1], r.ts[n - 1]);
    }
  }
}
