/** What holds over every run of calls on the in-memory job queue, whatever the interleaving,
    whoever makes the calls and whatever their clocks say. */
module LeaseSafety {
  import opened Wrappers
  import opened LeaseMachine
  import opened R = LeaseRefinement
  import Q = LeaseQueue

  /** The queue after the first `n` calls. */
  function Run(cfg: Q.Config, q: Q.Queue, es: seq<Q.Event>, n: nat): (r: Q.Queue)
    requires cfg.starvationAfterMs > 0 && Q.IdsAgree(q.jobs) && n <= |es|
    ensures Q.IdsAgree(r.jobs)
  {
    if n == 0 then q else Q.Call(cfg, Run(cfg, q, es, n - 1), es[n - 1]).0
  }

  /** A run from a well-formed queue in which every added job has an id the store does not know. */
  ghost predicate Legal(cfg: Q.Config, q: Q.Queue, es: seq<Q.Event>) {
    cfg.starvationAfterMs > 0 && Q.WellFormed(q) &&
    forall i {:trigger Run(cfg, q, es, i)} :: 0 <= i < |es| && es[i].AddJobCall? ==> es[i].seed.id !in Run(cfg, q, es, i).jobs
  }

  ghost function ReplyAt(cfg: Q.Config, q: Q.Queue, es: seq<Q.Event>, i: nat): Q.Reply
    requires Legal(cfg, q, es) && i < |es|
  {
    Q.Call(cfg, Run(cfg, q, es, i), es[i]).1
  }

  lemma {:induction false} StaysWellFormed(cfg: Q.Config, q: Q.Queue, es: seq<Q.Event>, i: nat)
    requires Legal(cfg, q, es) && i <= |es|
    ensures Q.WellFormed(Run(cfg, q, es, i))
  {
    if i > 0 {
      StaysWellFormed(cfg, q, es, i - 1);
      CallRefines(cfg, Run(cfg, q, es, i - 1), es[i - 1]);
    }
  }

  // ---- A run of calls is one run of the lease machine ----

  /** The machine operations the first `n` calls amount to, in order. */
  ghost function Committed(cfg: Q.Config, q: Q.Queue, es: seq<Q.Event>, n: nat): seq<Op>
    requires cfg.starvationAfterMs > 0 && Q.IdsAgree(q.jobs) && n <= |es|
  {
    if n == 0 then [] else Committed(cfg, q, es, n - 1) + OpsOf(cfg, Run(cfg, q, es, n - 1), es[n - 1])
  }

  /** Calls in any interleaving are one run of the lease machine. */
  lemma {:induction false} RunRefines(cfg: Q.Config, q: Q.Queue, es: seq<Q.Event>, n: nat)
    requires Legal(cfg, q, es) && n <= |es|
    ensures AbsJobs(Run(cfg, q, es, n).jobs) == Exec(AbsJobs(q.jobs), Committed(cfg, q, es, n))
  {
    hide *;
    LegalMeans(cfg, q, es);
    if n == 0 {
      NoCallYet(cfg, q, es);
    } else {
      RunRefines(cfg, q, es, n - 1);
      StaysWellFormed(cfg, q, es, n - 1);
      CallOfRun(cfg, q, es, n);
      CommittedOneMore(cfg, q, es, n);
      CallRefines(cfg, Run(cfg, q, es, n - 1), es[n - 1]);
      ExecConcat(AbsJobs(q.jobs), Committed(cfg, q, es, n - 1), OpsOf(cfg, Run(cfg, q, es, n - 1), es[n - 1]));
    }
  }

  lemma LegalMeans(cfg: Q.Config, q: Q.Queue, es: seq<Q.Event>)
    requires Legal(cfg, q, es)
    ensures cfg.starvationAfterMs > 0 && Q.WellFormed(q) && Q.IdsAgree(q.jobs)
  {
  }

  lemma NoCallYet(cfg: Q.Config, q: Q.Queue, es: seq<Q.Event>)
    requires cfg.starvationAfterMs > 0 && Q.IdsAgree(q.jobs)
    ensures Run(cfg, q, es, 0) == q && Committed(cfg, q, es, 0) == []
    ensures Exec(AbsJobs(q.jobs), []) == AbsJobs(q.jobs)
  {
  }

  lemma CallOfRun(cfg: Q.Config, q: Q.Queue, es: seq<Q.Event>, n: nat)
    requires Legal(cfg, q, es) && 0 < n <= |es|
    ensures cfg.starvationAfterMs > 0 && Q.IdsAgree(Run(cfg, q, es, n - 1).jobs)
    ensures es[n - 1].AddJobCall? ==> es[n - 1].seed.id !in Run(cfg, q, es, n - 1).jobs
    ensures Run(cfg, q, es, n) == Q.Call(cfg, Run(cfg, q, es, n - 1), es[n - 1]).0
  {
  }

  lemma {:induction false} CommittedGrows(cfg: Q.Config, q: Q.Queue, es: seq<Q.Event>, i: nat, j: nat)
    requires cfg.starvationAfterMs > 0 && Q.IdsAgree(q.jobs) && i <= j <= |es|
    ensures Committed(cfg, q, es, i) <= Committed(cfg, q, es, j)
    decreases j
  {
    hide *;
    if i < j {
      CommittedGrows(cfg, q, es, i, j - 1);
      CommittedOneMore(cfg, q, es, j);
    }
  }

  lemma CommittedOneMore(cfg: Q.Config, q: Q.Queue, es: seq<Q.Event>, n: nat)
    requires cfg.starvationAfterMs > 0 && Q.IdsAgree(q.jobs) && 0 < n <= |es|
    ensures Committed(cfg, q, es, n) == Committed(cfg, q, es, n - 1) + OpsOf(cfg, Run(cfg, q, es, n - 1), es[n - 1])
  {
  }

  lemma CallKeeps(cfg: Q.Config, q: Q.Queue, e: Q.Event, job: Id, token: int)
    requires cfg.starvationAfterMs > 0 && Q.WellFormed(q) && job in q.jobs
    requires e.AddJobCall? ==> e.seed.id !in q.jobs
    ensures job in Q.Call(cfg, q, e).0.jobs && Kept(Abs(q.jobs[job]), Abs(Q.Call(cfg, q, e).0.jobs[job]), token)
  {
    CallRefines(cfg, q, e);
    ExecKeeps(AbsJobs(q.jobs), OpsOf(cfg, q, e), job, token);
    assert job in AbsJobs(Q.Call(cfg, q, e).0.jobs);
  }

  /** The job's cell after the first `n` calls. */
  ghost function CellAt(cfg: Q.Config, q: Q.Queue, es: seq<Q.Event>, n: nat, job: Id): Cell
    requires Legal(cfg, q, es) && n <= |es| && job in Run(cfg, q, es, n).jobs
  {
    Abs(Run(cfg, q, es, n).jobs[job])
  }

  lemma {:induction false} KeptBetween(cfg: Q.Config, q: Q.Queue, es: seq<Q.Event>, i: nat, j: nat, job: Id, token: int)
    requires Legal(cfg, q, es) && i <= j <= |es| && job in Run(cfg, q, es, i).jobs
    ensures job in Run(cfg, q, es, j).jobs
    ensures Kept(CellAt(cfg, q, es, i, job), CellAt(cfg, q, es, j, job), token)
    decreases j - i
  {
    if i < j {
      KeptBetween(cfg, q, es, i, j - 1, job, token);
      StaysWellFormed(cfg, q, es, j - 1);
      CallKeeps(cfg, Run(cfg, q, es, j - 1), es[j - 1], job, token);
    }
  }

  /** What a claim or a reap does to one job: recover it if its lease lapsed, then perhaps grant it. */
  lemma SweepCell(cfg: Q.Config, q: Q.Queue, e: Q.Event, job: Id)
    requires cfg.starvationAfterMs > 0 && Q.WellFormed(q) && job in q.jobs && (e.ClaimCall? || e.ReapCall?)
    ensures job in Q.Call(cfg, q, e).0.jobs
    ensures var c, d, reply := Abs(q.jobs[job]), Abs(Q.Call(cfg, q, e).0.jobs[job]), Q.Call(cfg, q, e).1;
            var swept := if Lapsed(c, e.now) then LeaseMachine.Recovered(c) else c;
            if reply.Claimed? && reply.claim.Some? && reply.claim.value.jobId == job
            then swept.state.Waiting() && !swept.cancelRequested && reply.claim.value.fencingToken == c.token + 1 &&
                 d.state.Leased? && d.token == c.token + 1 && d.attempt == swept.attempt && d.maxAttempts == c.maxAttempts
            else d == swept
    ensures Lapsed(Abs(q.jobs[job]), e.now) == Q.LeaseHasLapsed(q.jobs[job], e.now)
  {
    ReapedJob(cfg, q.jobs[job], job, e.now);
    if e.ClaimCall? {
      var reaped := Q.Reap(cfg, q, e.now);
      TakenCell(cfg, reaped, Q.Pick(cfg, reaped, e.runnerId, e.capabilities, e.labels, e.now), e.runnerId, e.now, e.newLease, job);
    }
  }

  lemma TakenCell(cfg: Q.Config, q: Q.Queue, pick: Option<Id>, runnerId: Id, now: int, leaseId: Id, job: Id)
    requires pick.Some? ==> pick.value in q.jobs && q.jobs[pick.value].id == pick.value
    requires job in q.jobs
    ensures var r := Q.Take(cfg, q, pick, runnerId, now, leaseId);
            var c, d := Abs(q.jobs[job]), Abs(r.0.jobs[job]);
            (r.1.Some? && r.1.value.jobId == job <==> pick == Some(job)) &&
            if pick == Some(job)
            then r.1.value.fencingToken == c.token + 1 &&
                 d == NextCell(c, Op.Grant(job, Lease(leaseId, runnerId, now + cfg.leaseDurationMs)))
            else d == c
  {
  }

  // ---- Fencing ----

  /** The call is a claim that was granted `job` under `token`. */
  ghost predicate Grants(cfg: Q.Config, q: Q.Queue, e: Q.Event, job: Id, token: nat)
    requires cfg.starvationAfterMs > 0 && Q.IdsAgree(q.jobs)
  {
    var reply := Q.Call(cfg, q, e).1;
    reply.Claimed? && reply.claim.Some? && reply.claim.value.jobId == job && reply.claim.value.fencingToken == token
  }

  /** The call takes `job` away from the holder of `token`: a completion or release it accepts,
      or a reap, alone or at the head of a claim, that finds the lease lapsed. */
  ghost predicate Ends(cfg: Q.Config, q: Q.Queue, e: Q.Event, job: Id, token: nat)
    requires cfg.starvationAfterMs > 0 && Q.IdsAgree(q.jobs)
  {
    job in q.jobs && q.jobs[job].state.Leased? && q.jobs[job].fencingToken == token &&
    match e
    case ReleaseCall(id, _, _, _, _) => id == job && Q.Call(cfg, q, e).1.ok
    case CompleteCall(id, _, _) => id == job && Q.Call(cfg, q, e).1.ok
    case ClaimCall(_, _, _, now, _) => Q.LeaseHasLapsed(q.jobs[job], now)
    case ReapCall(now) => Q.LeaseHasLapsed(q.jobs[job], now)
    case _ => false
  }

  ghost predicate Granted(cfg: Q.Config, q: Q.Queue, es: seq<Q.Event>, i: nat, job: Id, token: nat)
    requires Legal(cfg, q, es)
  {
    i < |es| && Grants(cfg, Run(cfg, q, es, i), es[i], job, token)
  }

  ghost predicate Ended(cfg: Q.Config, q: Q.Queue, es: seq<Q.Event>, i: nat, job: Id, token: nat)
    requires Legal(cfg, q, es)
  {
    i < |es| && Ends(cfg, Run(cfg, q, es, i), es[i], job, token)
  }

  /** A call grants a job under a token exactly when the job has that token after it and had the one
      before. */
  lemma GrantsExactlyWhen(cfg: Q.Config, q: Q.Queue, e: Q.Event, job: Id, token: nat)
    requires cfg.starvationAfterMs > 0 && Q.WellFormed(q) && (e.AddJobCall? ==> e.seed.id !in q.jobs)
    ensures var next := Q.Call(cfg, q, e).0.jobs;
            Grants(cfg, q, e, job, token) <==>
            job in q.jobs && job in next && next[job].fencingToken == token == q.jobs[job].fencingToken + 1
  {
    if (e.ClaimCall? || e.ReapCall?) && job in q.jobs {
      SweepCell(cfg, q, e, job);
    } else if e.ClaimCall? {
      R.ReapWellFormed(cfg, q, e.now);
    }
  }

  /** A call ends what was granted under a token exactly when the job is leased under it before and not
      after. */
  lemma EndsExactlyWhen(cfg: Q.Config, q: Q.Queue, e: Q.Event, job: Id, token: nat)
    requires cfg.starvationAfterMs > 0 && Q.WellFormed(q) && (e.AddJobCall? ==> e.seed.id !in q.jobs)
    ensures var next := Q.Call(cfg, q, e).0.jobs;
            Ends(cfg, q, e, job, token) <==>
            job in q.jobs && q.jobs[job].state == Leased && q.jobs[job].fencingToken == token &&
            job in next && !(next[job].state == Leased && next[job].fencingToken == token)
  {
    if (e.ClaimCall? || e.ReapCall?) && job in q.jobs {
      SweepCell(cfg, q, e, job);
    }
  }

  /** Runs begin at any well-formed queue, and any call goes on from any run unless it adds a job the
      store knows. */
  lemma RunsGoOn(cfg: Q.Config, q: Q.Queue, es: seq<Q.Event>, e: Q.Event)
    requires cfg.starvationAfterMs > 0 && Q.WellFormed(q)
    ensures Legal(cfg, q, []) && Run(cfg, q, [], 0) == q
    ensures Legal(cfg, q, es) && (e.AddJobCall? ==> e.seed.id !in Run(cfg, q, es, |es|).jobs) ==>
              Legal(cfg, q, es + [e]) && Run(cfg, q, es + [e], |es| + 1) == Q.Call(cfg, Run(cfg, q, es, |es|), e).0
  {
    forall n | 0 <= n <= |es| ensures Run(cfg, q, es + [e], n) == Run(cfg, q, es, n) {
      SameRunSoFar(cfg, q, es, e, n);
    }
  }

  lemma {:induction false} SameRunSoFar(cfg: Q.Config, q: Q.Queue, es: seq<Q.Event>, e: Q.Event, n: nat)
    requires cfg.starvationAfterMs > 0 && Q.IdsAgree(q.jobs) && n <= |es|
    ensures Run(cfg, q, es + [e], n) == Run(cfg, q, es, n)
  {
    if n > 0 {
      SameRunSoFar(cfg, q, es, e, n - 1);
      assert (es + [e])[n - 1] == es[n - 1];
    }
  }

  /** A granted claim found the job waiting, or made it so by reaping it, and leaves it leased
      under the next token. */
  lemma GrantEffect(cfg: Q.Config, q: Q.Queue, es: seq<Q.Event>, i: nat, job: Id, token: nat)
    requires Legal(cfg, q, es) && Granted(cfg, q, es, i, job, token)
    ensures job in Run(cfg, q, es, i).jobs && job in Run(cfg, q, es, i + 1).jobs
    ensures var c, d := CellAt(cfg, q, es, i, job), CellAt(cfg, q, es, i + 1, job);
            c.token + 1 == token && d.token == token && d.state.Leased? && !c.cancelRequested && !c.state.Terminal()
  {
    StaysWellFormed(cfg, q, es, i);
    SweepCell(cfg, Run(cfg, q, es, i), es[i], job);
  }

  /** The operations of a granted claim: the sweep, and then the grant, which the machine allows. */
  lemma GrantOpsOf(cfg: Q.Config, q: Q.Queue, e: Q.Event, job: Id, token: nat) returns (sweep: seq<Op>)
    requires cfg.starvationAfterMs > 0 && Q.WellFormed(q) && Grants(cfg, q, e, job, token)
    ensures var ops := OpsOf(cfg, q, e);
            |ops| == |sweep| + 1 && ops[..|sweep|] == sweep && ops[|sweep|].Grant? && ops[|sweep|].job == job &&
            Enabled(Exec(AbsJobs(q.jobs), sweep), ops[|sweep|]) && Exec(AbsJobs(q.jobs), sweep)[job].token + 1 == token
  {
    sweep := RecoverAll(q.order, e.now);
    var reaped := Q.Reap(cfg, q, e.now);
    var pick := Q.Pick(cfg, reaped, e.runnerId, e.capabilities, e.labels, e.now);
    ReapRefines(cfg, q, e.now);
    TakenCell(cfg, reaped, pick, e.runnerId, e.now, e.newLease, job);
    assert job in AbsJobs(reaped.jobs);
    assert OpsOf(cfg, q, e) == sweep + GrantOps(cfg, pick, e.runnerId, e.now, e.newLease);
  }

  /** A granted claim of the run is a grant of the machine's run, at the last of its operations. */
  lemma GrantOfMachine(cfg: Q.Config, q: Q.Queue, es: seq<Q.Event>, i: nat, n: nat, job: Id, token: nat)
    requires Legal(cfg, q, es) && i < n <= |es| && Granted(cfg, q, es, i, job, token)
    ensures |Committed(cfg, q, es, i)| < |Committed(cfg, q, es, i + 1)|
    ensures GrantedAt(AbsJobs(q.jobs), Committed(cfg, q, es, n), |Committed(cfg, q, es, i + 1)| - 1, job, token)
  {
    hide *;
    LegalMeans(cfg, q, es);
    GrantedMeans(cfg, q, es, i, job, token);
    StaysWellFormed(cfg, q, es, i);
    RunRefines(cfg, q, es, i);
    CommittedGrows(cfg, q, es, i + 1, n);
    var m, was := AbsJobs(q.jobs), Committed(cfg, q, es, i);
    var sweep := GrantOpsOf(cfg, Run(cfg, q, es, i), es[i], job, token);
    CommittedOneMore(cfg, q, es, i + 1);
    ExecConcat(m, was, sweep);
    GrantInPlace(m, was, sweep, OpsOf(cfg, Run(cfg, q, es, i), es[i]), Committed(cfg, q, es, n), job, token);
  }

  lemma GrantedMeans(cfg: Q.Config, q: Q.Queue, es: seq<Q.Event>, i: nat, job: Id, token: nat)
    requires Legal(cfg, q, es) && Granted(cfg, q, es, i, job, token)
    ensures i < |es| && Q.IdsAgree(Run(cfg, q, es, i).jobs) && Grants(cfg, Run(cfg, q, es, i), es[i], job, token)
  {
  }

  lemma GrantInPlace(m: Machine, was: seq<Op>, sweep: seq<Op>, ops: seq<Op>, all: seq<Op>, job: Id, token: nat)
    requires was + ops <= all && |ops| == |sweep| + 1 && ops[..|sweep|] == sweep
    requires ops[|sweep|].Grant? && ops[|sweep|].job == job
    requires Enabled(Exec(m, was + sweep), ops[|sweep|]) && Exec(m, was + sweep)[job].token + 1 == token
    ensures GrantedAt(m, all, |was| + |sweep|, job, token)
  {
    assert all[..|was| + |sweep|] == was + sweep;
    assert all[|was| + |sweep|] == (was + ops)[|was| + |sweep|];
  }

  /** Over every run a job's fencing tokens strictly increase, so no (job, token) is granted twice. */
  lemma TokensIncrease(cfg: Q.Config, q: Q.Queue, es: seq<Q.Event>, i: nat, j: nat, job: Id, t: nat, u: nat)
    requires Legal(cfg, q, es) && i < j
    requires Granted(cfg, q, es, i, job, t) && Granted(cfg, q, es, j, job, u)
    ensures t < u
  {
    hide *;
    LegalMeans(cfg, q, es);
    GrantedMeans(cfg, q, es, i, job, t);
    GrantedMeans(cfg, q, es, j, job, u);
    GrantOfMachine(cfg, q, es, i, |es|, job, t);
    GrantOfMachine(cfg, q, es, j, |es|, job, u);
    CommittedGrows(cfg, q, es, i + 1, j);
    TokensStrictlyIncrease(AbsJobs(q.jobs), Committed(cfg, q, es, |es|), |Committed(cfg, q, es, i + 1)| - 1,
                           |Committed(cfg, q, es, j + 1)| - 1, job, t, u);
  }

  lemma CallEndSpends(cfg: Q.Config, q: Q.Queue, e: Q.Event, job: Id, token: nat)
    requires cfg.starvationAfterMs > 0 && Q.WellFormed(q) && Ends(cfg, q, e, job, token)
    ensures job in Q.Call(cfg, q, e).0.jobs && Spent(Abs(Q.Call(cfg, q, e).0.jobs[job]), token)
  {
    if e.ReapCall? || e.ClaimCall? {
      SweepCell(cfg, q, e, job);
    }
  }

  lemma EndSpends(cfg: Q.Config, q: Q.Queue, es: seq<Q.Event>, i: nat, job: Id, token: nat)
    requires Legal(cfg, q, es) && Ended(cfg, q, es, i, job, token)
    ensures job in Run(cfg, q, es, i + 1).jobs && Spent(CellAt(cfg, q, es, i + 1, job), token)
  {
    StaysWellFormed(cfg, q, es, i);
    CallEndSpends(cfg, Run(cfg, q, es, i), es[i], job, token);
  }

  /** A grant is ended at most once, and its token is never granted again. */
  lemma EndedAtMostOnce(cfg: Q.Config, q: Q.Queue, es: seq<Q.Event>, i: nat, j: nat, job: Id, token: nat)
    requires Legal(cfg, q, es) && i < j && Ended(cfg, q, es, i, job, token)
    ensures !Ended(cfg, q, es, j, job, token) && !Granted(cfg, q, es, j, job, token)
  {
    EndSpends(cfg, q, es, i, job, token);
    if j < |es| {
      KeptBetween(cfg, q, es, i + 1, j, job, token);
      if Granted(cfg, q, es, j, job, token) {
        GrantEffect(cfg, q, es, j, job, token);
      }
    }
  }

  ghost predicate CallsUnder(e: Q.Event, job: Id, token: int) {
    match e
    case RenewCall(id, _, t, _, _) => id == job && t == token
    case ReleaseCall(id, _, t, _, _) => id == job && t == token
    case CompleteCall(id, c, _) => id == job && c.fencingToken == token
    case _ => false
  }

  /** Once a grant has ended or a later one was made, every renew, release or complete under its
      token is refused and leaves the whole store as it was. */
  lemma StaleHolderIsRefused(cfg: Q.Config, q: Q.Queue, es: seq<Q.Event>, i: nat, j: nat, job: Id, token: nat, later: nat)
    requires Legal(cfg, q, es) && i < j < |es| && CallsUnder(es[j], job, token)
    requires Ended(cfg, q, es, i, job, token) || (token < later && Granted(cfg, q, es, i, job, later))
    ensures ReplyAt(cfg, q, es, j) == Q.Answer(false)
    ensures Run(cfg, q, es, j + 1) == Run(cfg, q, es, j)
  {
    if Ended(cfg, q, es, i, job, token) {
      EndSpends(cfg, q, es, i, job, token);
    } else {
      GrantEffect(cfg, q, es, i, job, later);
    }
    KeptBetween(cfg, q, es, i + 1, j, job, token);
    hide Q.Call;
    hide CallsUnder;
    SpentCallIsRefused(cfg, Run(cfg, q, es, j), es[j], job, token);
  }

  lemma SpentCallIsRefused(cfg: Q.Config, q: Q.Queue, e: Q.Event, job: Id, token: nat)
    requires cfg.starvationAfterMs > 0 && Q.IdsAgree(q.jobs) && job in q.jobs && Spent(Abs(q.jobs[job]), token)
    requires CallsUnder(e, job, token)
    ensures Q.Call(cfg, q, e) == (q, Q.Answer(false))
  {
  }

  /** A holder whose lease has run out by the clock is refused, reaped or not, whatever it calls. */
  lemma ExpiredHolderIsRefused(cfg: Q.Config, q: Q.Queue, e: Q.Event, job: Id)
    requires cfg.starvationAfterMs > 0 && Q.WellFormed(q) && job in q.jobs
    requires (e.RenewCall? || e.ReleaseCall? || e.CompleteCall?) && e.jobId == job
    requires Q.LeaseHasLapsed(q.jobs[job], e.clock)
    ensures Q.Call(cfg, q, e) == (q, Q.Answer(false))
  {
  }

  /** A job leased after a call was just granted by it, or keeps the lease it had before it. */
  lemma LeasedAfter(cfg: Q.Config, q: Q.Queue, e: Q.Event, job: Id)
    requires cfg.starvationAfterMs > 0 && Q.WellFormed(q)
    requires var r := Q.Call(cfg, q, e).0; job in r.jobs && r.jobs[job].state.Leased?
    ensures var token := Q.Call(cfg, q, e).0.jobs[job].fencingToken;
            Grants(cfg, q, e, job, token) ||
            (job in q.jobs && q.jobs[job].state.Leased? && q.jobs[job].fencingToken == token && !Ends(cfg, q, e, job, token))
  {
    if (e.ClaimCall? || e.ReapCall?) && job in q.jobs {
      SweepCell(cfg, q, e, job);
    }
  }

  /** Every lease in force was granted in this run and has not ended since. */
  lemma {:induction false} LeaseWasGranted(cfg: Q.Config, q: Q.Queue, es: seq<Q.Event>, n: nat, job: Id, token: nat) returns (g: nat)
    requires Legal(cfg, q, es) && n <= |es| && (forall id :: id in q.jobs ==> !q.jobs[id].state.Leased?)
    requires var jobs := Run(cfg, q, es, n).jobs; job in jobs && jobs[job].state.Leased? && jobs[job].fencingToken == token
    ensures g < n && Granted(cfg, q, es, g, job, token)
    ensures forall k :: g < k < n ==> !Ended(cfg, q, es, k, job, token)
  {
    hide *;
    LegalMeans(cfg, q, es);
    if n == 0 {
      NoCallYet(cfg, q, es);
      assert false;
    } else {
      LastCall(cfg, q, es, n, job, token);
      if Granted(cfg, q, es, n - 1, job, token) {
        g := n - 1;
      } else {
        g := LeaseWasGranted(cfg, q, es, n - 1, job, token);
      }
    }
  }

  lemma LastCall(cfg: Q.Config, q: Q.Queue, es: seq<Q.Event>, n: nat, job: Id, token: nat)
    requires Legal(cfg, q, es) && 0 < n <= |es|
    requires var jobs := Run(cfg, q, es, n).jobs; job in jobs && jobs[job].state.Leased? && jobs[job].fencingToken == token
    ensures Granted(cfg, q, es, n - 1, job, token) ||
            (var jobs := Run(cfg, q, es, n - 1).jobs;
             job in jobs && jobs[job].state.Leased? && jobs[job].fencingToken == token && !Ended(cfg, q, es, n - 1, job, token))
  {
    StaysWellFormed(cfg, q, es, n - 1);
    LeasedAfter(cfg, Run(cfg, q, es, n - 1), es[n - 1], job);
  }

  /** Every ending takes back a grant the store made earlier in the run and had not taken back. */
  lemma EndingHasItsGrant(cfg: Q.Config, q: Q.Queue, es: seq<Q.Event>, i: nat, job: Id, token: nat) returns (g: nat)
    requires Legal(cfg, q, es) && (forall id :: id in q.jobs ==> !q.jobs[id].state.Leased?)
    requires Ended(cfg, q, es, i, job, token)
    ensures g < i && Granted(cfg, q, es, g, job, token)
    ensures forall k :: g < k < i ==> !Ended(cfg, q, es, k, job, token)
  {
    g := LeaseWasGranted(cfg, q, es, i, job, token);
  }

  // ---- Cancellation and attempts ----

  /** Completed, failed and cancelled are never left; a cancel request is never taken back and
      no later claim grants the job, whatever state the request found it in. */
  lemma CancelAndTerminalAbsorb(cfg: Q.Config, q: Q.Queue, es: seq<Q.Event>, i: nat, j: nat, job: Id, token: nat)
    requires Legal(cfg, q, es) && i <= j <= |es| && job in Run(cfg, q, es, i).jobs
    requires var before := Run(cfg, q, es, i).jobs[job]; before.state.Terminal() || before.cancelRequested
    ensures job in Run(cfg, q, es, j).jobs
    ensures var a, b := Run(cfg, q, es, i).jobs[job], Run(cfg, q, es, j).jobs[job];
            b.fencingToken == a.fencingToken && (a.state.Terminal() ==> b.state == a.state) &&
            (a.cancelRequested ==> b.cancelRequested)
    ensures !Granted(cfg, q, es, j, job, token)
  {
    KeptBetween(cfg, q, es, i, j, job, 0);
    if Granted(cfg, q, es, j, job, token) {
      GrantEffect(cfg, q, es, j, job, token);
    }
  }

  /** The call finds the job's lease lapsed and puts the job back on the queue. */
  ghost predicate Requeues(q: Q.Queue, e: Q.Event, job: Id) {
    (e.ClaimCall? || e.ReapCall?) && job in q.jobs &&
    Q.LeaseHasLapsed(q.jobs[job], e.now) && Q.RecoveryOf(q.jobs[job]).requeued
  }

  ghost function RequeueingReaps(cfg: Q.Config, q: Q.Queue, es: seq<Q.Event>, n: nat, job: Id): nat
    requires cfg.starvationAfterMs > 0 && Q.IdsAgree(q.jobs) && n <= |es|
  {
    if n == 0 then 0
    else RequeueingReaps(cfg, q, es, n - 1, job) + if Requeues(Run(cfg, q, es, n - 1), es[n - 1], job) then 1 else 0
  }

  lemma CallAttempt(cfg: Q.Config, q: Q.Queue, e: Q.Event, job: Id)
    requires cfg.starvationAfterMs > 0 && Q.WellFormed(q) && job in q.jobs
    requires e.AddJobCall? ==> e.seed.id !in q.jobs
    ensures job in Q.Call(cfg, q, e).0.jobs
    ensures var a, b := q.jobs[job], Q.Call(cfg, q, e).0.jobs[job];
            b.maxAttempts == a.maxAttempts && b.attempt == a.attempt + (if Requeues(q, e, job) then 1 else 0) &&
            (Requeues(q, e, job) ==> a.attempt < a.maxAttempts)
  {
    if e.ClaimCall? || e.ReapCall? {
      SweepCell(cfg, q, e, job);
    }
  }

  /** A job's attempt number is its first one plus the reaps that requeued it, and stays within
      its budget. */
  lemma {:induction false} AttemptsAreBounded(cfg: Q.Config, q: Q.Queue, es: seq<Q.Event>, n: nat, job: Id)
    requires Legal(cfg, q, es) && n <= |es| && job in q.jobs
    ensures job in Run(cfg, q, es, n).jobs
    ensures var a, b := q.jobs[job], Run(cfg, q, es, n).jobs[job];
            b.maxAttempts == a.maxAttempts &&
            b.attempt == a.attempt + RequeueingReaps(cfg, q, es, n, job) &&
            b.attempt <= Max(a.attempt, a.maxAttempts)
  {
    hide *;
    LegalMeans(cfg, q, es);
    if n == 0 {
      NoCallYet(cfg, q, es);
      NoReapYet(cfg, q, es, job);
    } else {
      AttemptsAreBounded(cfg, q, es, n - 1, job);
      StaysWellFormed(cfg, q, es, n - 1);
      CallOfRun(cfg, q, es, n);
      CallAttempt(cfg, Run(cfg, q, es, n - 1), es[n - 1], job);
      OneMoreReap(cfg, q, es, n, job);
    }
    MaxIsUpper(q.jobs[job].attempt, q.jobs[job].maxAttempts);
  }

  lemma NoReapYet(cfg: Q.Config, q: Q.Queue, es: seq<Q.Event>, job: Id)
    requires cfg.starvationAfterMs > 0 && Q.IdsAgree(q.jobs)
    ensures RequeueingReaps(cfg, q, es, 0, job) == 0
  {
  }

  lemma OneMoreReap(cfg: Q.Config, q: Q.Queue, es: seq<Q.Event>, n: nat, job: Id)
    requires cfg.starvationAfterMs > 0 && Q.IdsAgree(q.jobs) && 0 < n <= |es|
    ensures RequeueingReaps(cfg, q, es, n, job) ==
            RequeueingReaps(cfg, q, es, n - 1, job) + if Requeues(Run(cfg, q, es, n - 1), es[n - 1], job) then 1 else 0
  {
  }

  lemma MaxIsUpper(a: int, b: int)
    ensures a <= Max(a, b) && b <= Max(a, b)
  {
  }
}
