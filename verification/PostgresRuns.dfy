/** Every interleaving of the worker's Postgres transactions with the API's inserts, cancellations
    and event batches on the same rows is a run of the lease machine. */
module PostgresRuns {
  import opened Wrappers
  import opened LeaseMachine
  import opened PhaseOutcome
  import opened R = PostgresRefinement
  import P = PostgresStore

  datatype Txn =
    // `locked` are the rows other transactions hold, which the claim's query skips.
    | ClaimTxn(runnerId: Id, capabilities: set<Id>, labels: set<Id>, locked: set<Id>, now: int, newLease: Id)
    | RenewTxn(job: Id, leaseId: Id, token: int, expiresAt: int, now: int)
    | ReleaseTxn(job: Id, leaseId: Id, token: int, availableAt: int, now: int)
    | CompleteTxn(job: Id, leaseId: Id, token: int, status: JobResult, error: Option<string>, now: int)
    | ReapTxn(ids: seq<Id>, now: int)
    | CreateTxn(runId: Id, run: P.RunRow, job: Id, row: P.JobRow)
    | CancelTxn(runId: Id, now: int)
    | EventTxn(job: Id, leaseId: Id, token: int, events: seq<Option<P.Asked>>, now: int)

  ghost function Claimed(cfg: P.Config, db: P.Db, t: Txn): Option<Id>
    requires t.ClaimTxn?
  {
    P.Pick(cfg, db, t.runnerId, t.capabilities, t.labels, t.locked, t.now)
  }

  /** The tables after a transaction, and what it answers where it answers yes or no. */
  ghost function Call(cfg: P.Config, db: P.Db, t: Txn): (P.Db, bool) {
    match t
    case ClaimTxn(runnerId, _, _, _, now, newLease) =>
      (P.Claim(cfg, db, Claimed(cfg, db, t), runnerId, now, newLease), Claimed(cfg, db, t).Some?)
    case RenewTxn(id, leaseId, token, expiresAt, now) => P.Renew(db, id, leaseId, token, expiresAt, now)
    case ReleaseTxn(id, leaseId, token, availableAt, now) => P.Release(db, id, leaseId, token, availableAt, now)
    case CompleteTxn(id, leaseId, token, status, error, now) => P.Complete(db, id, leaseId, token, status, error, now)
    case ReapTxn(ids, now) => (P.Reap(cfg, db, ids, now), true)
    case CreateTxn(runId, run, id, row) => (P.Create(db, runId, run, id, row), true)
    case CancelTxn(runId, now) => (P.CancelRun(db, runId, now), runId in db.runs)
    case EventTxn(id, leaseId, token, events, now) => P.ApplyEvents(db, id, leaseId, token, events, now)
  }

  ghost function Step(cfg: P.Config, db: P.Db, t: Txn): P.Db {
    Call(cfg, db, t).0
  }

  ghost predicate Fits(db: P.Db, t: Txn) {
    (t.CompleteTxn? ==> !t.status.JobRequeue?) && (t.CreateTxn? ==> P.IsNewRun(db, t.runId, t.run, t.job, t.row))
  }

  ghost function CancelOps(db: P.Db, runId: Id): seq<Op> {
    if runId in db.runs && !IsTerminalPhase(db.runs[runId].phase) then
      if id :| id in db.jobs && db.jobs[id].runId == runId then [CancelOp(db.jobs[id], id)] else []
    else []
  }

  /** The machine operations a transaction commits; none when it only refuses. */
  ghost function OpsOf(cfg: P.Config, db: P.Db, t: Txn): seq<Op> {
    match t
    case ClaimTxn(runnerId, _, _, _, now, newLease) =>
      if Claimed(cfg, db, t).None? then [] else [Grant(Claimed(cfg, db, t).value, Lease(newLease, runnerId, now + cfg.leaseDurationMs))]
    case RenewTxn(id, leaseId, token, expiresAt, now) => if expiresAt > now then [Renew(id, leaseId, token, now, expiresAt)] else []
    case ReleaseTxn(id, leaseId, token, _, now) => [Release(id, leaseId, token, now)]
    case CompleteTxn(id, leaseId, token, status, _, now) => [Complete(id, leaseId, token, now, TerminalJobState(status))]
    case ReapTxn(ids, now) => RecoverAll(ids, now)
    case CreateTxn(_, run, id, row) => [Submit(id, row.attempt, P.MaxAttemptsFor(run.maxAttempts, cfg.maxAttempts))]
    case CancelTxn(runId, _) => CancelOps(db, runId)
    case EventTxn(_, _, _, _, _) => []
  }

  /** An event batch that asks its run to end, under a lease that matches. */
  ghost predicate EndsRunByEvent(cfg: P.Config, db: P.Db, t: Txn) {
    t.EventTxn? && Call(cfg, db, t).1 && AsksToEnd(t.events)
  }

  /** The transaction keeps the tables' checks and moves the machine by its operations; unless it is
      an event batch that ends a run, it keeps jobs and runs in agreement too. */
  ghost predicate Refined(cfg: P.Config, db: P.Db, t: Txn) {
    RowsOk(Step(cfg, db, t)) && AbsDb(cfg, Step(cfg, db, t)) == Exec(AbsDb(cfg, db), OpsOf(cfg, db, t)) &&
    (Agreed(db) ==> (Agreed(Step(cfg, db, t)) <==> !EndsRunByEvent(cfg, db, t)))
  }

  lemma StepRefines(cfg: P.Config, db: P.Db, t: Txn)
    requires RowsOk(db) && Fits(db, t)
    ensures Refined(cfg, db, t)
  {
    hide *;
    match t
    case ClaimTxn(_, _, _, _, _, _) => ClaimStep(cfg, db, t);
    case RenewTxn(_, _, _, _, _) => LeaseStep(cfg, db, t);
    case ReleaseTxn(_, _, _, _, _) => LeaseStep(cfg, db, t);
    case CompleteTxn(_, _, _, _, _, _) => LeaseStep(cfg, db, t);
    case ReapTxn(_, _) => ReapStep(cfg, db, t);
    case CreateTxn(_, _, _, _) => CreateStep(cfg, db, t);
    case CancelTxn(_, _) => CancelStep(cfg, db, t);
    case EventTxn(_, _, _, _, _) => EventStep(cfg, db, t);
  }

  lemma ClaimStep(cfg: P.Config, db: P.Db, t: Txn)
    requires RowsOk(db) && t.ClaimTxn?
    ensures Refined(cfg, db, t)
  {
    hide *;
    var pick := Claimed(cfg, db, t);
    ClaimCommits(cfg, db, t);
    if pick.Some? {
      ClaimRefines(cfg, db, t.runnerId, t.capabilities, t.labels, t.now, t.newLease, pick.value);
      OneOp(AbsDb(cfg, db), Grant(pick.value, Lease(t.newLease, t.runnerId, t.now + cfg.leaseDurationMs)));
    } else {
      ExecNone(AbsDb(cfg, db));
    }
    KeepingIsRefined(cfg, db, t);
  }

  lemma ClaimCommits(cfg: P.Config, db: P.Db, t: Txn)
    requires RowsOk(db) && t.ClaimTxn?
    ensures Keeps(db, db)
    ensures Claimed(cfg, db, t).None? ==> Step(cfg, db, t) == db && OpsOf(cfg, db, t) == []
    ensures Claimed(cfg, db, t).Some? ==>
              var id := Claimed(cfg, db, t).value;
              id in P.Candidates(cfg, db, t.runnerId, t.capabilities, t.labels, t.now) &&
              id in db.jobs && db.jobs[id].runId in db.runs &&
              Step(cfg, db, t) == P.Claim(cfg, db, Some(id), t.runnerId, t.now, t.newLease) &&
              OpsOf(cfg, db, t) == [Grant(id, Lease(t.newLease, t.runnerId, t.now + cfg.leaseDurationMs))]
  {
  }

  lemma KeepingIsRefined(cfg: P.Config, db: P.Db, t: Txn)
    requires !t.EventTxn? && Keeps(db, Step(cfg, db, t))
    requires AbsDb(cfg, Step(cfg, db, t)) == Exec(AbsDb(cfg, db), OpsOf(cfg, db, t))
    ensures Refined(cfg, db, t)
  {
    hide AbsDb;
    hide Exec;
  }

  lemma LeaseStep(cfg: P.Config, db: P.Db, t: Txn)
    requires RowsOk(db) && Fits(db, t) && (t.RenewTxn? || t.ReleaseTxn? || t.CompleteTxn?)
    ensures Refined(cfg, db, t)
  {
    var ops := OpsOf(cfg, db, t);
    if |ops| == 1 { OneOp(AbsDb(cfg, db), ops[0]); }
    match t
    case RenewTxn(id, leaseId, token, expiresAt, now) => RenewRefines(cfg, db, id, leaseId, token, expiresAt, now);
    case ReleaseTxn(id, leaseId, token, availableAt, now) => ReleaseRefines(cfg, db, id, leaseId, token, availableAt, now);
    case CompleteTxn(id, leaseId, token, status, error, now) => CompleteRefines(cfg, db, id, leaseId, token, status, error, now);
  }

  lemma ReapStep(cfg: P.Config, db: P.Db, t: Txn)
    requires RowsOk(db) && t.ReapTxn?
    ensures Refined(cfg, db, t)
  {
    ReapRefines(cfg, db, t.ids, t.now);
  }

  lemma CreateStep(cfg: P.Config, db: P.Db, t: Txn)
    requires RowsOk(db) && Fits(db, t) && t.CreateTxn?
    ensures Refined(cfg, db, t)
  {
    OneOp(AbsDb(cfg, db), OpsOf(cfg, db, t)[0]);
    CreateRefines(cfg, db, t.runId, t.run, t.job, t.row);
  }

  lemma CancelStep(cfg: P.Config, db: P.Db, t: Txn)
    requires RowsOk(db) && t.CancelTxn?
    ensures Refined(cfg, db, t)
  {
    var ops := CancelOps(db, t.runId);
    if ops == [] {
      CancelOfNoJob(cfg, db, t.runId, t.now);
    } else {
      OneOp(AbsDb(cfg, db), ops[0]);
      CancelRefines(cfg, db, t.runId, t.now, ops[0].job);
    }
  }

  lemma EventStep(cfg: P.Config, db: P.Db, t: Txn)
    requires RowsOk(db) && t.EventTxn?
    ensures Refined(cfg, db, t)
  {
    EventsRefine(cfg, db, t.job, t.leaseId, t.token, t.events, t.now);
    if Agreed(db) && Call(cfg, db, t).1 {
      EventsKeepAgreementExactlyWhen(db, t.job, t.leaseId, t.token, t.events, t.now);
    }
  }

  /** A run: the tables before, between and after its transactions. */
  datatype Trace = Trace(dbs: seq<P.Db>, ts: seq<Txn>) {
    predicate Shaped() {
      |dbs| == |ts| + 1
    }
  }

  /** Transaction `i` is allowed by the callers, and takes the tables on as the store does. */
  ghost predicate StepsAt(cfg: P.Config, r: Trace, i: nat)
    requires r.Shaped() && i < |r.ts|
  {
    Fits(r.dbs[i], r.ts[i]) && r.dbs[i + 1] == Step(cfg, r.dbs[i], r.ts[i])
  }

  ghost predicate IsRun(cfg: P.Config, r: Trace) {
    r.Shaped() && RowsOk(r.dbs[0]) && forall i :: 0 <= i < |r.ts| ==> StepsAt(cfg, r, i)
  }

  /** Runs begin at any tables that pass their checks, and any transaction its callers may make goes on
      from any run. */
  lemma RunsGoOn(cfg: P.Config, db: P.Db, r: Trace, t: Txn)
    ensures RowsOk(db) ==> IsRun(cfg, Trace([db], []))
    ensures IsRun(cfg, r) && Fits(r.dbs[|r.ts|], t) ==> IsRun(cfg, Trace(r.dbs + [Step(cfg, r.dbs[|r.ts|], t)], r.ts + [t]))
  {
    hide Step;
    hide Fits;
    hide RowsOk;
    if IsRun(cfg, r) && Fits(r.dbs[|r.ts|], t) {
      var longer := Trace(r.dbs + [Step(cfg, r.dbs[|r.ts|], t)], r.ts + [t]);
      forall i | 0 <= i < |longer.ts| ensures StepsAt(cfg, longer, i) {
        assert i < |r.ts| ==> StepsAt(cfg, r, i);
      }
    }
  }

  /** In every reachable state a run's phase is terminal exactly when its outcome is set, a job has a
      lease exactly when it is leased, and no two jobs share a run. */
  lemma {:induction false} StaysConsistent(cfg: P.Config, r: Trace, n: nat)
    requires IsRun(cfg, r) && n <= |r.ts|
    ensures RowsOk(r.dbs[n])
  {
    if n > 0 {
      StaysConsistent(cfg, r, n - 1);
      assert StepsAt(cfg, r, n - 1);
      StepRefines(cfg, r.dbs[n - 1], r.ts[n - 1]);
    }
  }

  /** Every step of a run is a step of the lease machine, or leaves the machine as it was. */
  lemma StepOfRunRefines(cfg: P.Config, r: Trace, i: nat)
    requires IsRun(cfg, r) && i < |r.ts|
    ensures RowsOk(r.dbs[i]) && RowsOk(r.dbs[i + 1])
    ensures AbsDb(cfg, r.dbs[i + 1]) == Exec(AbsDb(cfg, r.dbs[i]), OpsOf(cfg, r.dbs[i], r.ts[i]))
    ensures Agreed(r.dbs[i]) ==> (Agreed(r.dbs[i + 1]) <==> !EndsRunByEvent(cfg, r.dbs[i], r.ts[i]))
  {
    StaysConsistent(cfg, r, i);
    assert StepsAt(cfg, r, i);
    StepRefines(cfg, r.dbs[i], r.ts[i]);
  }

  /** Jobs and runs that agreed agree for as long as no event batch ends a run under a lease. */
  lemma {:induction false} AgreementLasts(cfg: P.Config, r: Trace, n: nat)
    requires IsRun(cfg, r) && n <= |r.ts| && Agreed(r.dbs[0])
    requires forall i :: 0 <= i < n ==> !EndsRunByEvent(cfg, r.dbs[i], r.ts[i])
    ensures Agreed(r.dbs[n])
  {
    hide *;
    RunShape(cfg, r);
    if n > 0 {
      AgreementLasts(cfg, r, n - 1);
      StepOfRunRefines(cfg, r, n - 1);
    }
  }

  /** And the very step that does end one breaks the agreement. */
  lemma AgreementBreaks(cfg: P.Config, r: Trace, i: nat)
    requires IsRun(cfg, r) && i < |r.ts| && Agreed(r.dbs[i]) && EndsRunByEvent(cfg, r.dbs[i], r.ts[i])
    ensures !Agreed(r.dbs[i + 1])
  {
    StepOfRunRefines(cfg, r, i);
  }

  /** The operations the first `n` transactions commit, in order. */
  ghost function Committed(cfg: P.Config, r: Trace, n: nat): seq<Op>
    requires r.Shaped() && n <= |r.ts|
  {
    if n == 0 then [] else Committed(cfg, r, n - 1) + OpsOf(cfg, r.dbs[n - 1], r.ts[n - 1])
  }

  /** A run of transactions is one run of the lease machine. */
  lemma {:induction false} RunRefines(cfg: P.Config, r: Trace, n: nat)
    requires IsRun(cfg, r) && r.Shaped() && n <= |r.ts|
    ensures AbsDb(cfg, r.dbs[n]) == Exec(AbsDb(cfg, r.dbs[0]), Committed(cfg, r, n))
  {
    hide *;
    RunShape(cfg, r);
    if n == 0 {
      CommittedNone(cfg, r);
      ExecNone(AbsDb(cfg, r.dbs[0]));
    } else {
      RunRefines(cfg, r, n - 1);
      StepOfRunRefines(cfg, r, n - 1);
      CommittedOneMore(cfg, r, n);
      ExecConcat(AbsDb(cfg, r.dbs[0]), Committed(cfg, r, n - 1), OpsOf(cfg, r.dbs[n - 1], r.ts[n - 1]));
    }
  }

  lemma CommittedNone(cfg: P.Config, r: Trace)
    requires r.Shaped()
    ensures Committed(cfg, r, 0) == []
  {
  }

  lemma CommittedOneMore(cfg: P.Config, r: Trace, n: nat)
    requires r.Shaped() && 0 < n <= |r.ts|
    ensures Committed(cfg, r, n) == Committed(cfg, r, n - 1) + OpsOf(cfg, r.dbs[n - 1], r.ts[n - 1])
  {
  }

  // ---- The fencing results, for the Postgres store ----

  /** The transaction is a claim that leases `job` under `token`. */
  ghost predicate Grants(cfg: P.Config, db: P.Db, t: Txn, job: Id, token: nat) {
    t.ClaimTxn? && Claimed(cfg, db, t) == Some(job) && job in db.jobs && db.jobs[job].fencingToken + 1 == token
  }

  /** A granting claim commits exactly one grant, which the machine allows, and leaves the row
      leased to the claimant under the token. */
  lemma GrantIsOneOp(cfg: P.Config, db: P.Db, t: Txn, job: Id, token: nat) returns (op: Op)
    requires RowsOk(db) && Grants(cfg, db, t, job, token)
    ensures OpsOf(cfg, db, t) == [op] && op.Grant? && op.job == job && op.lease.owner == t.runnerId
    ensures Enabled(AbsDb(cfg, db), op) && AbsDb(cfg, db)[job].token + 1 == token
    ensures job in Step(cfg, db, t).jobs
    ensures var row := Step(cfg, db, t).jobs[job];
             row.state.Leased? && row.leaseOwner == Some(t.runnerId) && row.fencingToken == token
  {
    ClaimRefines(cfg, db, t.runnerId, t.capabilities, t.labels, t.now, t.newLease, job);
    op := OpsOf(cfg, db, t)[0];
  }

  lemma StepKeeps(cfg: P.Config, r: Trace, i: nat, job: Id, token: int)
    requires IsRun(cfg, r) && i < |r.ts|
    requires job in AbsDb(cfg, r.dbs[i])
    ensures job in AbsDb(cfg, r.dbs[i + 1])
    ensures Kept(AbsDb(cfg, r.dbs[i])[job], AbsDb(cfg, r.dbs[i + 1])[job], token)
  {
    StepOfRunRefines(cfg, r, i);
    ExecKeeps(AbsDb(cfg, r.dbs[i]), OpsOf(cfg, r.dbs[i], r.ts[i]), job, token);
  }

  lemma RunShape(cfg: P.Config, r: Trace)
    requires IsRun(cfg, r)
    ensures r.Shaped() && |r.dbs| == |r.ts| + 1
  {
  }

  lemma {:induction false} KeptBetween(cfg: P.Config, r: Trace, i: nat, j: nat, job: Id, token: int)
    requires IsRun(cfg, r) && i <= j <= |r.ts|
    requires job in AbsDb(cfg, r.dbs[i])
    ensures job in AbsDb(cfg, r.dbs[j])
    ensures Kept(AbsDb(cfg, r.dbs[i])[job], AbsDb(cfg, r.dbs[j])[job], token)
    decreases j
  {
    hide *;
    RunShape(cfg, r);
    if i == j {
      KeptIsReflexive(AbsDb(cfg, r.dbs[i])[job], token);
    } else {
      KeptBetween(cfg, r, i, j - 1, job, token);
      StepKeeps(cfg, r, j - 1, job, token);
      KeptChains(AbsDb(cfg, r.dbs[i])[job], AbsDb(cfg, r.dbs[j - 1])[job], AbsDb(cfg, r.dbs[j])[job], token);
    }
  }

  predicate LeasedUnder(row: P.JobRow, token: int) {
    row.state.Leased? && row.fencingToken == token
  }

  /** Not leased under `token`, and past it: it never will be again. */
  predicate RowSpent(row: P.JobRow, token: int) {
    token < row.fencingToken || (token == row.fencingToken && !row.state.Leased?)
  }

  /** The same, said of the rows. */
  lemma RowKept(cfg: P.Config, r: Trace, i: nat, j: nat, job: Id, token: int)
    requires IsRun(cfg, r) && i <= j <= |r.ts| && job in r.dbs[i].jobs
    ensures RowsOk(r.dbs[j]) && job in r.dbs[j].jobs
    ensures var was, now := r.dbs[i].jobs[job], r.dbs[j].jobs[job];
            was.fencingToken <= now.fencingToken && (RowSpent(was, token) ==> RowSpent(now, token)) &&
            (was.state.Terminal() ==> now.state == was.state && now.fencingToken == was.fencingToken)
  {
    StaysConsistent(cfg, r, i);
    StaysConsistent(cfg, r, j);
    assert job in AbsDb(cfg, r.dbs[i]);
    KeptBetween(cfg, r, i, j, job, token);
    assert job in AbsDb(cfg, r.dbs[j]);
  }

  lemma {:induction false} CommittedGrows(cfg: P.Config, r: Trace, i: nat, j: nat)
    requires r.Shaped() && i <= j <= |r.ts|
    ensures Committed(cfg, r, i) <= Committed(cfg, r, j)
    decreases j
  {
    hide Committed;
    if i < j {
      CommittedGrows(cfg, r, i, j - 1);
      CommittedOneMore(cfg, r, j);
    }
  }

  /** A granting claim of the run is a grant of the machine's run. */
  lemma GrantOfMachine(cfg: P.Config, r: Trace, i: nat, job: Id, token: nat)
    requires IsRun(cfg, r) && i < |r.ts| && Grants(cfg, r.dbs[i], r.ts[i], job, token)
    ensures |Committed(cfg, r, i + 1)| == |Committed(cfg, r, i)| + 1
    ensures GrantedAt(AbsDb(cfg, r.dbs[0]), Committed(cfg, r, |r.ts|), |Committed(cfg, r, i)|, job, token)
  {
    hide *;
    RunShape(cfg, r);
    StaysConsistent(cfg, r, i);
    RunRefines(cfg, r, i);
    var op := GrantIsOneOp(cfg, r.dbs[i], r.ts[i], job, token);
    CommittedOneMore(cfg, r, i + 1);
    CommittedGrows(cfg, r, i + 1, |r.ts|);
    GrantInPlace(AbsDb(cfg, r.dbs[0]), Committed(cfg, r, i), op, Committed(cfg, r, |r.ts|), job, token);
  }

  lemma GrantInPlace(m: Machine, was: seq<Op>, op: Op, all: seq<Op>, job: Id, token: nat)
    requires was + [op] <= all && op.Grant? && op.job == job
    requires Enabled(Exec(m, was), op) && Exec(m, was)[job].token + 1 == token
    ensures GrantedAt(m, all, |was|, job, token)
  {
    assert all[..|was|] == was;
    assert all[|was|] == (was + [op])[|was|];
  }

  /** Over every run of transactions a job's fencing tokens strictly increase, so no claim ever
      gets a token another claim got. */
  lemma TokensIncrease(cfg: P.Config, r: Trace, i: nat, j: nat, job: Id, t: nat, u: nat)
    requires IsRun(cfg, r) && i < j < |r.ts|
    requires Grants(cfg, r.dbs[i], r.ts[i], job, t) && Grants(cfg, r.dbs[j], r.ts[j], job, u)
    ensures t < u
  {
    hide *;
    RunShape(cfg, r);
    GrantOfMachine(cfg, r, i, job, t);
    GrantOfMachine(cfg, r, j, job, u);
    CommittedGrows(cfg, r, i + 1, j);
    TokensStrictlyIncrease(AbsDb(cfg, r.dbs[0]), Committed(cfg, r, |r.ts|), |Committed(cfg, r, i)|,
                           |Committed(cfg, r, j)|, job, t, u);
  }

  /** The transaction took the lease granted under `token` away. */
  predicate EndsAt(r: Trace, i: nat, job: Id, token: int)
    requires r.Shaped() && i < |r.ts|
  {
    job in r.dbs[i].jobs && LeasedUnder(r.dbs[i].jobs[job], token) &&
    (job in r.dbs[i + 1].jobs ==> !LeasedUnder(r.dbs[i + 1].jobs[job], token))
  }

  /** A grant is ended at most once, and what was ended is not granted again. */
  lemma EndedAtMostOnce(cfg: P.Config, r: Trace, i: nat, j: nat, job: Id, token: nat)
    requires IsRun(cfg, r) && i < j < |r.ts| && EndsAt(r, i, job, token)
    ensures !EndsAt(r, j, job, token) && !Grants(cfg, r.dbs[j], r.ts[j], job, token)
  {
    RowKept(cfg, r, i, i + 1, job, token);
    RowKept(cfg, r, i + 1, j, job, token);
  }

  /** Once a job is no longer leased under a token it was leased under, or was leased again under a
      later one, every renew, release, completion and event batch under that token answers no and
      changes no row. */
  lemma StaleHolderIsRefused(cfg: P.Config, r: Trace, i: nat, j: nat, job: Id, token: nat)
    requires IsRun(cfg, r) && i <= j < |r.ts| && job in r.dbs[i].jobs
    requires RowSpent(r.dbs[i].jobs[job], token)
    requires (r.ts[j].RenewTxn? || r.ts[j].ReleaseTxn? || r.ts[j].CompleteTxn? || r.ts[j].EventTxn?) &&
             r.ts[j].job == job && r.ts[j].token == token
    ensures Call(cfg, r.dbs[j], r.ts[j]) == (r.dbs[j], false) && r.dbs[j + 1] == r.dbs[j]
  {
    RowKept(cfg, r, i, j, job, token);
    assert StepsAt(cfg, r, j);
  }

  /** A job that has ended together with its run is never touched again, and its run stays ended. */
  lemma {:induction false} EndedStays(cfg: P.Config, r: Trace, i: nat, j: nat, job: Id)
    requires IsRun(cfg, r) && i <= j <= |r.ts| && EndedPair(r.dbs[i], job)
    ensures EndedPair(r.dbs[j], job) && r.dbs[j].jobs[job] == r.dbs[i].jobs[job]
    decreases j
  {
    if i < j {
      EndedStays(cfg, r, i, j - 1, job);
      StaysConsistent(cfg, r, j - 1);
      assert StepsAt(cfg, r, j - 1);
      EndedStep(cfg, r.dbs[j - 1], r.ts[j - 1], job);
    }
  }

  lemma EndedStep(cfg: P.Config, db: P.Db, t: Txn, job: Id)
    requires RowsOk(db) && Fits(db, t) && EndedPair(db, job)
    ensures EndedPair(Step(cfg, db, t), job) && Step(cfg, db, t).jobs[job] == db.jobs[job]
  {
    hide *;
    match t
    case ClaimTxn(_, _, _, _, _, _) => EndedClaim(cfg, db, t, job);
    case RenewTxn(_, _, _, _, _) => EndedLeaseCall(cfg, db, t, job);
    case ReleaseTxn(_, _, _, _, _) => EndedLeaseCall(cfg, db, t, job);
    case CompleteTxn(_, _, _, _, _, _) => EndedLeaseCall(cfg, db, t, job);
    case ReapTxn(_, _) => EndedReap(cfg, db, t, job);
    case CreateTxn(_, _, _, _) => EndedRowCall(cfg, db, t, job);
    case CancelTxn(_, _) => EndedRowCall(cfg, db, t, job);
    case EventTxn(_, _, _, _, _) => EndedLeaseCall(cfg, db, t, job);
  }

  lemma EndedClaim(cfg: P.Config, db: P.Db, t: Txn, job: Id)
    requires RowsOk(db) && t.ClaimTxn? && EndedPair(db, job)
    ensures EndedPair(Step(cfg, db, t), job) && Step(cfg, db, t).jobs[job] == db.jobs[job]
  {
    var pick := Claimed(cfg, db, t);
    if pick.Some? {
      var row := db.jobs[pick.value];
      OtherPair(db, Step(cfg, db, t), job, pick.value, P.GrantRow(cfg, row, t.runnerId, t.now, t.newLease),
                P.AssignRun(db.runs[row.runId], pick.value, t.runnerId, t.now));
    }
  }

  lemma EndedLeaseCall(cfg: P.Config, db: P.Db, t: Txn, job: Id)
    requires RowsOk(db) && (t.RenewTxn? || t.ReleaseTxn? || t.CompleteTxn? || t.EventTxn?) && EndedPair(db, job)
    ensures EndedPair(Step(cfg, db, t), job) && Step(cfg, db, t).jobs[job] == db.jobs[job]
  {
    if t.job in db.jobs && t.job != job {
      assert db.jobs[t.job].runId != db.jobs[job].runId;
    }
  }

  lemma EndedReap(cfg: P.Config, db: P.Db, t: Txn, job: Id)
    requires RowsOk(db) && t.ReapTxn? && EndedPair(db, job)
    ensures EndedPair(Step(cfg, db, t), job) && Step(cfg, db, t).jobs[job] == db.jobs[job]
  {
    ReapKeepsEnded(cfg, db, t.ids, t.now, job);
  }

  lemma EndedRowCall(cfg: P.Config, db: P.Db, t: Txn, job: Id)
    requires RowsOk(db) && Fits(db, t) && (t.CreateTxn? || t.CancelTxn?) && EndedPair(db, job)
    ensures EndedPair(Step(cfg, db, t), job) && Step(cfg, db, t).jobs[job] == db.jobs[job]
  {
  }
}
