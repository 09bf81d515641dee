/** The lease protocol both execution stores implement, with everything a store keeps for
    its own purposes removed: a job is a state, a fencing token, at most one lease, an
    attempt budget and a cancellation flag. An operation that is not enabled is refused and
    changes nothing, so every interleaving of calls is a run of this machine. */
module LeaseMachine {
  import opened Wrappers

  /** Identifiers, numbered in the order the store's comparator puts them. */
  type Id = nat

  datatype JobState = Queued | Requeued | Leased | Completed | Failed | Cancelled {
    predicate Waiting() { Queued? || Requeued? }

    predicate Terminal() { Completed? || Failed? || Cancelled? }
  }

  datatype Lease = Lease(id: Id, owner: Id, expiresAt: int)

  datatype Cell = Cell(state: JobState, token: nat, lease: Option<Lease>,
                       attempt: int, maxAttempts: int, cancelRequested: bool)

  type Machine = map<Id, Cell>

  datatype Op =
    | Submit(job: Id, attempt: int, maxAttempts: int)
    | Grant(job: Id, lease: Lease)
    | Renew(job: Id, leaseId: Id, token: int, at: int, expiresAt: int)
    | Release(job: Id, leaseId: Id, token: int, at: int)
    | Complete(job: Id, leaseId: Id, token: int, at: int, result: JobState)
    | Recover(job: Id, at: int)
    | RequestCancel(job: Id)
    | Revoke(job: Id)

  /** The caller presents the lease the job is under, and the lease has not run out. */
  predicate Holds(c: Cell, leaseId: Id, token: int, at: int) {
    c.state.Leased? && c.lease.Some? && c.lease.value.id == leaseId && c.token == token && at < c.lease.value.expiresAt
  }

  predicate Lapsed(c: Cell, at: int) {
    c.state.Leased? && c.lease.Some? && c.lease.value.expiresAt <= at
  }

  predicate Enabled(m: Machine, op: Op) {
    if op.Submit? then op.job !in m else
      op.job in m &&
      var c := m[op.job];
      match op
      case Submit(_, _, _) => false
      case Grant(_, _) => c.state.Waiting() && !c.cancelRequested
      case Renew(_, leaseId, token, at, _) => Holds(c, leaseId, token, at)
      case Release(_, leaseId, token, at) => Holds(c, leaseId, token, at)
      case Complete(_, leaseId, token, at, result) => result.Terminal() && Holds(c, leaseId, token, at)
      case Recover(_, at) => Lapsed(c, at)
      case RequestCancel(_) => true
      case Revoke(_) => !c.state.Terminal()
  }

  /** A lapsed lease requeues its job while attempts are left and nobody asked to cancel it. */
  predicate Requeues(c: Cell) {
    !c.cancelRequested && c.attempt < c.maxAttempts
  }

  function Recovered(c: Cell): Cell {
    if Requeues(c) then c.(state := Queued, lease := None, attempt := c.attempt + 1)
    else c.(state := if c.cancelRequested then Cancelled else Failed, lease := None)
  }

  function NextCell(c: Cell, op: Op): Cell {
    match op
    case Submit(_, _, _) => c
    case Grant(_, lease) => c.(state := Leased, token := c.token + 1, lease := Some(lease))
    case Renew(_, _, _, _, expiresAt) =>
      if c.lease.Some? then c.(lease := Some(c.lease.value.(expiresAt := expiresAt))) else c
    case Release(_, _, _, _) => c.(state := Queued, lease := None)
    case Complete(_, _, _, _, result) => c.(state := result, lease := None)
    case Recover(_, _) => Recovered(c)
    case RequestCancel(_) =>
      c.(cancelRequested := true, state := if c.state.Waiting() then Cancelled else c.state)
    case Revoke(_) => c.(cancelRequested := true, state := Cancelled, lease := None)
  }

  function Apply(m: Machine, op: Op): Machine {
    if !Enabled(m, op) then m
    else if op.Submit? then m[op.job := Cell(Queued, 0, None, op.attempt, op.maxAttempts, false)]
    else m[op.job := NextCell(m[op.job], op)]
  }

  function Exec(m: Machine, ops: seq<Op>): Machine {
    if ops == [] then m else Apply(Exec(m, ops[..|ops| - 1]), ops[|ops| - 1])
  }

  lemma {:induction false} ExecConcat(m: Machine, a: seq<Op>, b: seq<Op>)
    ensures Exec(m, a + b) == Exec(Exec(m, a), b)
    decreases |b|
  {
    if b == [] {
      assert a + b == a;
    } else {
      assert (a + b)[..|a + b| - 1] == a + b[..|b| - 1];
      ExecConcat(m, a, b[..|b| - 1]);
    }
  }

  lemma ExecOneMore(m: Machine, ops: seq<Op>, op: Op)
    ensures Exec(m, ops + [op]) == Apply(Exec(m, ops), op)
  {
    assert (ops + [op])[..|ops|] == ops;
  }

  lemma ExecNone(m: Machine)
    ensures Exec(m, []) == m
  {
  }

  lemma ExecStep(m: Machine, ops: seq<Op>, i: nat)
    requires i < |ops|
    ensures Exec(m, ops[..i + 1]) == Apply(Exec(m, ops[..i]), ops[i])
  {
    assert ops[..i + 1][..i] == ops[..i];
  }

  // ---- Reaping a list of jobs ----

  function RecoverAll(ids: seq<Id>, at: int): seq<Op> {
    if ids == [] then [] else RecoverAll(ids[..|ids| - 1], at) + [Recover(ids[|ids| - 1], at)]
  }

  lemma {:induction false} RecoverAllReaps(m: Machine, ids: seq<Id>, at: int)
    ensures var r := Exec(m, RecoverAll(ids, at));
            r.Keys == m.Keys &&
            forall id :: id in m ==> r[id] == if id in ids && Lapsed(m[id], at) then Recovered(m[id]) else m[id]
  {
    if ids != [] {
      var front, last := ids[..|ids| - 1], ids[|ids| - 1];
      RecoverAllReaps(m, front, at);
      assert RecoverAll(ids, at)[..|RecoverAll(ids, at)| - 1] == RecoverAll(front, at);
      assert forall id :: id in ids <==> id in front || id == last;
    }
  }

  // ---- What happened at step i of a run ----

  ghost predicate GrantedAt(m: Machine, ops: seq<Op>, i: nat, job: Id, token: nat) {
    i < |ops| && ops[i].Grant? && ops[i].job == job &&
    var before := Exec(m, ops[..i]);
    Enabled(before, ops[i]) && before[job].token + 1 == token
  }

  /** The step takes the lease granted under `token` away: complete, release, reap or revoke. */
  ghost predicate EndedAt(m: Machine, ops: seq<Op>, i: nat, job: Id, token: nat) {
    i < |ops| && ops[i].job == job &&
    (ops[i].Release? || ops[i].Complete? || ops[i].Recover? || ops[i].Revoke?) &&
    var before := Exec(m, ops[..i]);
    Enabled(before, ops[i]) && before[job].state.Leased? && before[job].token == token
  }

  /** No lease is in force, or ever will be again, under `token`. */
  predicate Spent(c: Cell, token: int) {
    token < c.token || (token == c.token && !c.state.Leased?)
  }

  /** What a job keeps from `c` on: its token never goes back, a spent token stays spent, a
      terminal state and a cancel request stay and freeze the token, the budget is fixed. */
  predicate Kept(c: Cell, d: Cell, token: int) {
    c.token <= d.token &&
    (Spent(c, token) ==> Spent(d, token)) &&
    (c.state.Terminal() ==> d.state == c.state && d.token == c.token) &&
    (c.cancelRequested ==> d.cancelRequested && d.token == c.token) &&
    d.maxAttempts == c.maxAttempts
  }

  lemma KeptIsReflexive(c: Cell, token: int)
    ensures Kept(c, c, token)
  {
  }

  lemma KeptChains(c: Cell, d: Cell, e: Cell, token: int)
    requires Kept(c, d, token) && Kept(d, e, token)
    ensures Kept(c, e, token)
  {
  }

  lemma ApplyKeeps(m: Machine, op: Op, job: Id, token: int)
    requires job in m
    ensures job in Apply(m, op) && Kept(m[job], Apply(m, op)[job], token)
  {
  }

  lemma {:induction false} ExecKeeps(m: Machine, ops: seq<Op>, job: Id, token: int)
    requires job in m
    ensures job in Exec(m, ops) && Kept(m[job], Exec(m, ops)[job], token)
  {
    if ops != [] {
      ExecKeeps(m, ops[..|ops| - 1], job, token);
      ApplyKeeps(Exec(m, ops[..|ops| - 1]), ops[|ops| - 1], job, token);
    }
  }

  lemma RunKeeps(m: Machine, ops: seq<Op>, i: nat, j: nat, job: Id, token: int)
    requires i <= j <= |ops| && job in Exec(m, ops[..i])
    ensures job in Exec(m, ops[..j]) && Kept(Exec(m, ops[..i])[job], Exec(m, ops[..j])[job], token)
  {
    assert ops[..j] == ops[..i] + ops[i..j];
    ExecConcat(m, ops[..i], ops[i..j]);
    ExecKeeps(Exec(m, ops[..i]), ops[i..j], job, token);
  }

  // ---- Fencing over every run ----

  /** A job's fencing tokens strictly increase, so each (job, token) is granted once. */
  lemma TokensStrictlyIncrease(m: Machine, ops: seq<Op>, i: nat, j: nat, job: Id, t: nat, u: nat)
    requires i < j && GrantedAt(m, ops, i, job, t) && GrantedAt(m, ops, j, job, u)
    ensures t < u
  {
    ExecStep(m, ops, i);
    RunKeeps(m, ops, i + 1, j, job, t);
  }

  lemma EndingSpends(m: Machine, ops: seq<Op>, i: nat, job: Id, token: nat)
    requires EndedAt(m, ops, i, job, token)
    ensures job in Exec(m, ops[..i + 1]) && Spent(Exec(m, ops[..i + 1])[job], token)
  {
    ExecStep(m, ops, i);
  }

  /** At most one complete, release, reap or revocation ends a grant. */
  lemma EndedOnce(m: Machine, ops: seq<Op>, i: nat, j: nat, job: Id, token: nat)
    requires i < j && EndedAt(m, ops, i, job, token)
    ensures !EndedAt(m, ops, j, job, token) && !GrantedAt(m, ops, j, job, token)
  {
    EndingSpends(m, ops, i, job, token);
    if j < |ops| {
      RunKeeps(m, ops, i + 1, j, job, token);
    }
  }

  /** From the moment a grant ended or was superseded, its holder's calls are all refused. */
  lemma StaleCallRefused(m: Machine, ops: seq<Op>, i: nat, j: nat, job: Id, token: nat)
    requires i < j < |ops|
    requires EndedAt(m, ops, i, job, token) || exists u: nat :: token < u && GrantedAt(m, ops, i, job, u)
    requires ops[j].job == job
    requires (ops[j].Renew? || ops[j].Release? || ops[j].Complete?) && ops[j].token == token
    ensures !Enabled(Exec(m, ops[..j]), ops[j])
    ensures Exec(m, ops[..j + 1]) == Exec(m, ops[..j])
  {
    ExecStep(m, ops, i);
    RunKeeps(m, ops, i + 1, j, job, token);
    ExecStep(m, ops, j);
  }

  /** A lease in force was granted in this run, under the current token, and not ended since. */
  lemma {:induction false} LeaseHasGrant(m: Machine, ops: seq<Op>, n: nat, job: Id) returns (g: nat)
    requires n <= |ops| && (forall k :: k in m ==> !m[k].state.Leased?)
    requires job in Exec(m, ops[..n]) && Exec(m, ops[..n])[job].state.Leased?
    ensures g < n && GrantedAt(m, ops, g, job, Exec(m, ops[..n])[job].token)
    ensures forall k :: g <= k < n ==> !EndedAt(m, ops, k, job, Exec(m, ops[..n])[job].token)
  {
    if n == 0 {
      assert false;
    } else {
      ExecStep(m, ops, n - 1);
      var before := Exec(m, ops[..n - 1]);
      var token := Exec(m, ops[..n])[job].token;
      if job in before && before[job].state.Leased? {
        g := LeaseHasGrant(m, ops, n - 1, job);
      } else {
        g := n - 1;
      }
    }
  }

  /** Every ending takes back a grant made earlier in the run, with nothing ending it between. */
  lemma EndingHasGrant(m: Machine, ops: seq<Op>, i: nat, job: Id, token: nat) returns (g: nat)
    requires (forall k :: k in m ==> !m[k].state.Leased?) && EndedAt(m, ops, i, job, token)
    ensures g < i && GrantedAt(m, ops, g, job, token)
    ensures forall k :: g <= k < i ==> !EndedAt(m, ops, k, job, token)
  {
    g := LeaseHasGrant(m, ops, i, job);
  }

  // ---- Attempts and cancellation over every run ----

  /** How many steps of the run put the job back on the queue after its lease lapsed. */
  ghost function Requeueings(m: Machine, ops: seq<Op>, job: Id): nat {
    if ops == [] then 0
    else
      var before, op := Exec(m, ops[..|ops| - 1]), ops[|ops| - 1];
      Requeueings(m, ops[..|ops| - 1], job) +
      if op.Recover? && op.job == job && Enabled(before, op) && Requeues(before[job]) then 1 else 0
  }

  /** The attempt number counts the requeueing reaps and stays within the budget. */
  lemma {:induction false} AttemptBudget(m: Machine, ops: seq<Op>, job: Id)
    requires job in m
    ensures var c := Exec(m, ops);
            job in c && c[job].maxAttempts == m[job].maxAttempts &&
            c[job].attempt == m[job].attempt + Requeueings(m, ops, job) &&
            c[job].attempt <= Max(m[job].attempt, m[job].maxAttempts)
  {
    if ops != [] {
      AttemptBudget(m, ops[..|ops| - 1], job);
    }
  }

  /** Completed, failed and cancelled are never left, a cancel request is never taken back, and
      neither is ever granted past. */
  lemma AbsorbingStates(m: Machine, ops: seq<Op>, i: nat, j: nat, job: Id, token: nat)
    requires i <= j && i <= |ops| && job in Exec(m, ops[..i])
    requires Exec(m, ops[..i])[job].state.Terminal() || Exec(m, ops[..i])[job].cancelRequested
    ensures !GrantedAt(m, ops, j, job, token)
    ensures Exec(m, ops[..i])[job].state.Terminal() && j <= |ops| ==>
              job in Exec(m, ops[..j]) && Exec(m, ops[..j])[job].state == Exec(m, ops[..i])[job].state
    ensures Exec(m, ops[..i])[job].cancelRequested && j <= |ops| ==>
              job in Exec(m, ops[..j]) && Exec(m, ops[..j])[job].cancelRequested
  {
    if j <= |ops| {
      RunKeeps(m, ops, i, j, job, 0);
    }
  }
}
