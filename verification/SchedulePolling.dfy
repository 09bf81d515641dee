/** Any number of pollers turning occurrences into jobs, each holding a snapshot that may be
    stale and a clock of its own, their store calls interleaved freely. */
module SchedulePolling {
  import opened Wrappers
  import opened LeaseMachine
  import opened ScheduleBoard
  import opened Cron

  /** The cron expression of each schedule; it does not change during a run. */
  type Crons = Id -> Cron

  ghost predicate AreCrons(crons: Crons) {
    forall id :: IsCron(crons(id))
  }

  /** What one poller still has to do for the one schedule it is working on. */
  datatype Poller =
    | Idle
    | Skipping(id: Id, due: int, next: int)
    | Single(id: Id, due: int, next: int)
    | CatchingUp(id: Id, due: int, next: int, now: int, processed: nat)

  datatype System = System(board: Board, pollers: map<Id, Poller>)

  /** `Look` reads a due schedule; `Act` makes the poller's next store call; `Stop` is a crash. */
  datatype Event =
    | Look(poller: Id, id: Id, now: int)
    | Act(poller: Id, runId: Id, jobId: Id)
    | Stop(poller: Id)

  const CATCH_UP_LIMIT: nat := 100

  /** What the poller does with the schedule it reads: `skip` and `run_once` aim at the first
      occurrence after its clock, `catch_up` at the first one after the pointer. */
  function Plan(cron: Cron, id: Id, s: Schedule, now: int): Poller {
    if !s.enabled || s.nextRunAt > now then Idle
    else
      match (s.policy, cron(s.nextRunAt), cron(now))
      case (_, None, _) => Idle
      case (Skip, Some(_), Some(n)) => Skipping(id, s.nextRunAt, n)
      case (RunOnce, Some(_), Some(n)) => Single(id, s.nextRunAt, n)
      case (CatchUp, Some(first), _) => CatchingUp(id, s.nextRunAt, first, now, 0)
      case _ => Idle
  }

  /** Does the poller's next call enqueue, rather than only advance the pointer? */
  predicate Enqueues(p: Poller) {
    p.Single? || (p.CatchingUp? && p.next <= p.now && p.processed < CATCH_UP_LIMIT)
  }

  predicate Advances(p: Poller) {
    p.Skipping? || (p.CatchingUp? && p.next > p.now)
  }

  function After(crons: Crons, p: Poller): Poller {
    if p.CatchingUp? && Enqueues(p) then
      match crons(p.id)(p.next)
      case None => Idle
      case Some(n) => CatchingUp(p.id, p.next, n, p.now, p.processed + 1)
    else Idle
  }

  function Answer(crons: Crons, s: System, e: Event): Option<Ticket> {
    if e.Act? && e.poller in s.pollers && Enqueues(s.pollers[e.poller]) then
      var p := s.pollers[e.poller];
      Enqueue(s.board, p.id, p.due, p.next, e.runId, e.jobId).1
    else None
  }

  /** The board after the poller's next store call. */
  function Called(b: Board, p: Poller, runId: Id, jobId: Id): Board {
    if Enqueues(p) then Enqueue(b, p.id, p.due, p.next, runId, jobId).0
    else if Advances(p) then Advance(b, p.id, p.due, p.next).0
    else b
  }

  function Step(crons: Crons, s: System, e: Event): System {
    match e
    case Look(poller, id, now) =>
      if id in s.board.schedules
      then s.(pollers := s.pollers[poller := Plan(crons(id), id, s.board.schedules[id], now)]) else s
    case Stop(poller) => s.(pollers := s.pollers[poller := Idle])
    case Act(poller, runId, jobId) =>
      if poller !in s.pollers then s
      else
        var p := s.pollers[poller];
        System(Called(s.board, p, runId, jobId), s.pollers[poller := After(crons, p)])
  }

  // ---- The invariant that survives every interleaving ----

  /** The pointer is where the poller last saw it, or has since moved on to a later occurrence. */
  predicate Behind(cron: Cron, due: int, pointer: int) {
    due == pointer || (due < pointer && Occurs(cron, pointer))
  }

  ghost predicate PollerOk(crons: Crons, b: Board, p: Poller) {
    p.Idle? ||
    (p.id in b.schedules && p.due < p.next && Occurs(crons(p.id), p.next) &&
     Behind(crons(p.id), p.due, b.schedules[p.id].nextRunAt) &&
     (p.CatchingUp? ==> crons(p.id)(p.due) == Some(p.next)))
  }

  /** Every occurrence already turned into a job lies behind its schedule's pointer. */
  ghost predicate ResultsBehind(b: Board) {
    forall id, t :: (id, t) in b.results ==> id in b.schedules && t < b.schedules[id].nextRunAt
  }

  ghost predicate Inv(crons: Crons, s: System) {
    ResultsBehind(s.board) && forall k :: k in s.pollers ==> PollerOk(crons, s.board, s.pollers[k])
  }

  /** The board only moves forward: pointers to later occurrences, results never changed. */
  ghost predicate MovesOn(crons: Crons, b: Board, c: Board) {
    b.schedules.Keys == c.schedules.Keys &&
    (forall id :: id in b.schedules ==>
      c.schedules[id].nextRunAt == b.schedules[id].nextRunAt ||
      (b.schedules[id].nextRunAt < c.schedules[id].nextRunAt && Occurs(crons(id), c.schedules[id].nextRunAt))) &&
    (forall k :: k in b.results ==> k in c.results && c.results[k] == b.results[k])
  }

  lemma PollerStaysOk(crons: Crons, b: Board, c: Board, p: Poller)
    requires PollerOk(crons, b, p) && MovesOn(crons, b, c)
    ensures PollerOk(crons, c, p)
  {
  }

  lemma PlanIsOk(crons: Crons, b: Board, id: Id, now: int)
    requires AreCrons(crons) && id in b.schedules
    ensures PollerOk(crons, b, Plan(crons(id), id, b.schedules[id], now))
  {
  }

  /** The store call of a poller in good standing moves the board on, and afterwards the poller,
      beaten to it or not, is behind the pointer at its next point too. */
  lemma ActKeeps(crons: Crons, b: Board, p: Poller, runId: Id, jobId: Id)
    requires AreCrons(crons) && PollerOk(crons, b, p) && ResultsBehind(b)
    ensures var c := Called(b, p, runId, jobId);
            MovesOn(crons, b, c) && ResultsBehind(c) && PollerOk(crons, c, After(crons, p))
  {
    hide *;
    CalledMovesOn(crons, b, p, runId, jobId);
    if p.CatchingUp? && Enqueues(p) {
      CaughtUpStaysOk(crons, b, p, runId, jobId);
    } else {
      AfterIsIdle(crons, Called(b, p, runId, jobId), p);
    }
  }

  lemma AfterIsIdle(crons: Crons, c: Board, p: Poller)
    requires !(p.CatchingUp? && Enqueues(p))
    ensures PollerOk(crons, c, After(crons, p))
  {
  }

  lemma CalledMovesOn(crons: Crons, b: Board, p: Poller, runId: Id, jobId: Id)
    requires PollerOk(crons, b, p) && ResultsBehind(b)
    ensures MovesOn(crons, b, Called(b, p, runId, jobId)) && ResultsBehind(Called(b, p, runId, jobId))
  {
  }

  lemma CaughtUpStaysOk(crons: Crons, b: Board, p: Poller, runId: Id, jobId: Id)
    requires AreCrons(crons) && PollerOk(crons, b, p) && ResultsBehind(b) && p.CatchingUp? && Enqueues(p)
    ensures PollerOk(crons, Called(b, p, runId, jobId), After(crons, p))
  {
    var cron, pointer := crons(p.id), b.schedules[p.id].nextRunAt;
    assert IsCron(cron);
    if pointer != p.due {
      NextIsLeast(cron, p.due, pointer);
    }
    if cron(p.next).Some? {
      NextOccurs(cron, p.next);
    }
  }

  lemma StepKeeps(crons: Crons, s: System, e: Event)
    requires AreCrons(crons) && Inv(crons, s)
    ensures Inv(crons, Step(crons, s, e)) && MovesOn(crons, s.board, Step(crons, s, e).board)
  {
    var next := Step(crons, s, e);
    match e
    case Look(poller, id, now) =>
      if id in s.board.schedules {
        PlanIsOk(crons, s.board, id, now);
      }
    case Stop(poller) =>
    case Act(poller, runId, jobId) =>
      if poller in s.pollers {
        ActKeeps(crons, s.board, s.pollers[poller], runId, jobId);
        forall k | k in next.pollers ensures PollerOk(crons, next.board, next.pollers[k]) {
          if k != poller {
            PollerStaysOk(crons, s.board, next.board, s.pollers[k]);
          }
        }
      }
  }

  // ---- Every run ----

  function Run(crons: Crons, s: System, es: seq<Event>, n: nat): System
    requires n <= |es|
  {
    if n == 0 then s else Step(crons, Run(crons, s, es, n - 1), es[n - 1])
  }

  lemma {:induction false} RunKeeps(crons: Crons, s: System, es: seq<Event>, i: nat, j: nat)
    requires AreCrons(crons) && Inv(crons, s) && i <= j <= |es|
    ensures Inv(crons, Run(crons, s, es, i)) && Inv(crons, Run(crons, s, es, j))
    ensures MovesOn(crons, Run(crons, s, es, i).board, Run(crons, s, es, j).board)
    decreases j
  {
    if i < j {
      RunKeeps(crons, s, es, i, j - 1);
      StepKeeps(crons, Run(crons, s, es, j - 1), es[j - 1]);
    } else if i > 0 {
      RunKeeps(crons, s, es, i - 1, j - 1);
      StepKeeps(crons, Run(crons, s, es, j - 1), es[j - 1]);
    }
  }

  /** Step `i` turns the occurrence into a new job. */
  predicate Creates(crons: Crons, s: System, es: seq<Event>, i: nat, key: Occurrence, ticket: Ticket) {
    i < |es| && es[i].Act? &&
    var before := Run(crons, s, es, i);
    es[i].poller in before.pollers && Enqueues(before.pollers[es[i].poller]) &&
    (before.pollers[es[i].poller].id, before.pollers[es[i].poller].due) == key &&
    Answer(crons, before, es[i]) == Some(ticket) && !ticket.duplicate
  }

  ghost predicate Start(crons: Crons, s: System) {
    AreCrons(crons) && Inv(crons, s) && forall k :: k in s.board.results ==> !s.board.results[k].duplicate
  }

  /** A store that has enqueued nothing yet, with nobody polling, is a start. */
  lemma NewSystemStarts(crons: Crons, schedules: map<Id, Schedule>)
    requires AreCrons(crons)
    ensures Start(crons, System(Board(schedules, map[]), map[]))
  {
  }

  lemma CreationRecorded(crons: Crons, s: System, es: seq<Event>, i: nat, key: Occurrence, ticket: Ticket)
    requires Start(crons, s) && Creates(crons, s, es, i, key, ticket)
    ensures key !in Run(crons, s, es, i).board.results
    ensures key in Run(crons, s, es, i + 1).board.results && Run(crons, s, es, i + 1).board.results[key] == ticket
    ensures key.0 in Run(crons, s, es, i).board.schedules && Run(crons, s, es, i).board.schedules[key.0].nextRunAt == key.1
    ensures key.1 < Run(crons, s, es, i + 1).board.schedules[key.0].nextRunAt
  {
    RunKeeps(crons, s, es, i, i + 1);
  }

  /** And nothing else makes one: an occurrence has a result after a step that it had not before
      exactly when the step created it, and then that ticket is the result. */
  lemma NewResultsAreCreations(crons: Crons, s: System, es: seq<Event>, i: nat, key: Occurrence)
    requires Start(crons, s) && i < |es|
    ensures var b, c := Run(crons, s, es, i).board.results, Run(crons, s, es, i + 1).board.results;
            (key !in b && key in c <==> exists ticket :: Creates(crons, s, es, i, key, ticket)) &&
            (key !in b && key in c ==> Creates(crons, s, es, i, key, c[key]))
  {
    var b, c := Run(crons, s, es, i).board.results, Run(crons, s, es, i + 1).board.results;
    if key !in b && key in c {
      assert Creates(crons, s, es, i, key, c[key]);
    }
    if ticket :| Creates(crons, s, es, i, key, ticket) {
      CreationRecorded(crons, s, es, i, key, ticket);
    }
  }

  /** Each occurrence of each schedule becomes a job at most once, whoever polls it and when. */
  lemma CreatedAtMostOnce(crons: Crons, s: System, es: seq<Event>, i: nat, j: nat, key: Occurrence, a: Ticket, b: Ticket)
    requires Start(crons, s) && i < j && Creates(crons, s, es, i, key, a)
    ensures !Creates(crons, s, es, j, key, b)
  {
    CreationRecorded(crons, s, es, i, key, a);
    if j < |es| {
      RunKeeps(crons, s, es, i + 1, j);
      if Creates(crons, s, es, j, key, b) {
        CreationRecorded(crons, s, es, j, key, b);
      }
    }
  }

  /** Asked again for an occurrence it has enqueued, the store answers with that same run and job,
      marked as a duplicate, for ever after. */
  lemma RepeatsReturnTheSameJob(crons: Crons, s: System, es: seq<Event>, i: nat, j: nat, key: Occurrence, ticket: Ticket)
    requires Start(crons, s) && i < j < |es| && Creates(crons, s, es, i, key, ticket) && es[j].Act?
    requires var before := Run(crons, s, es, j);
             es[j].poller in before.pollers && Enqueues(before.pollers[es[j].poller]) &&
             (before.pollers[es[j].poller].id, before.pollers[es[j].poller].due) == key
    ensures Answer(crons, Run(crons, s, es, j), es[j]) == Some(ticket.(duplicate := true))
    ensures Run(crons, s, es, j + 1).board == Run(crons, s, es, j).board
  {
    CreationRecorded(crons, s, es, i, key, ticket);
    RunKeeps(crons, s, es, i + 1, j);
  }

  /** A schedule's jobs are created in strictly increasing order of occurrence. */
  lemma CreationsInOrder(crons: Crons, s: System, es: seq<Event>, i: nat, j: nat, id: Id, t: int, u: int, a: Ticket, b: Ticket)
    requires Start(crons, s) && i < j
    requires Creates(crons, s, es, i, (id, t), a) && Creates(crons, s, es, j, (id, u), b)
    ensures t < u
  {
    CreationRecorded(crons, s, es, i, (id, t), a);
    CreationRecorded(crons, s, es, j, (id, u), b);
    RunKeeps(crons, s, es, i + 1, j);
  }

  /** Whatever a step does, a schedule's pointer stays or moves to a strictly later occurrence. */
  lemma PointersOnlyAdvance(crons: Crons, s: System, es: seq<Event>, i: nat, j: nat, id: Id)
    requires Start(crons, s) && i <= j <= |es| && id in s.board.schedules
    ensures var a, b := Run(crons, s, es, i).board.schedules, Run(crons, s, es, j).board.schedules;
            id in a && id in b && (a[id].nextRunAt == b[id].nextRunAt ||
              (a[id].nextRunAt < b[id].nextRunAt && Occurs(crons(id), b[id].nextRunAt)))
  {
    RunKeeps(crons, s, es, 0, i);
    RunKeeps(crons, s, es, i, j);
  }

  /** The store call of the poller's step is accepted: it makes a new job, or moves the pointer. */
  predicate Accepted(b: Board, p: Poller, runId: Id, jobId: Id) {
    if Enqueues(p) then
      var answer := Enqueue(b, p.id, p.due, p.next, runId, jobId).1;
      answer.Some? && !answer.value.duplicate
    else Advances(p) && Advance(b, p.id, p.due, p.next).1
  }

  /** A step changes the board exactly when its call is accepted, and every accepted call moves its
      schedule's pointer from the point it names to the strictly later occurrence it aims at. */
  lemma AcceptedCallsAdvance(crons: Crons, s: System, es: seq<Event>, i: nat)
    requires Start(crons, s) && i < |es| && es[i].Act? && es[i].poller in Run(crons, s, es, i).pollers
    ensures var b, p := Run(crons, s, es, i).board, Run(crons, s, es, i).pollers[es[i].poller];
            var c := Run(crons, s, es, i + 1).board;
            (c != b <==> Accepted(b, p, es[i].runId, es[i].jobId)) &&
            (c != b ==> p.id in b.schedules && p.id in c.schedules && b.schedules[p.id].nextRunAt == p.due &&
                        p.due < c.schedules[p.id].nextRunAt == p.next && Occurs(crons(p.id), p.next))
  {
    RunKeeps(crons, s, es, i, i);
    var b, p := Run(crons, s, es, i).board, Run(crons, s, es, i).pollers[es[i].poller];
    assert PollerOk(crons, b, p);
    AcceptedMoves(crons, b, p, es[i].runId, es[i].jobId);
  }

  lemma AcceptedMoves(crons: Crons, b: Board, p: Poller, runId: Id, jobId: Id)
    requires PollerOk(crons, b, p)
    ensures var c := Called(b, p, runId, jobId);
            (c != b <==> Accepted(b, p, runId, jobId)) &&
            (c != b ==> p.id in b.schedules && p.id in c.schedules && b.schedules[p.id].nextRunAt == p.due &&
                        p.due < c.schedules[p.id].nextRunAt == p.next && Occurs(crons(p.id), p.next))
  {
  }

  // ---- The Postgres store's guard ----

  /** The Postgres store advances a pointer that is at or before the expected point. */
  function PgAdvance(b: Board, id: Id, expected: int, next: int): (Board, bool) {
    if id !in b.schedules || b.schedules[id].nextRunAt > expected then (b, false)
    else (b.(schedules := b.schedules[id := b.schedules[id].(nextRunAt := next)]), true)
  }

  /** It advances first and then inserts, leaving the row that is already there on conflict. */
  function PgEnqueue(b: Board, id: Id, dueAt: int, next: int, runId: Id, jobId: Id): (Board, Option<Ticket>) {
    var advanced := PgAdvance(b, id, dueAt, next);
    if !advanced.1 then (b, None)
    else if (id, dueAt) in b.results then (advanced.0, Some(b.results[(id, dueAt)].(duplicate := true)))
    else
      var ticket := Ticket(runId, jobId, false);
      (advanced.0.(results := b.results[(id, dueAt) := ticket]), Some(ticket))
  }

  /** Whatever the board, the Postgres call is refused exactly when the schedule is unknown or its
      pointer is past the point; otherwise the pointer moves, and an occurrence that has a job keeps
      it and is answered with it as a duplicate. */
  lemma PgEnqueueIs(b: Board, id: Id, dueAt: int, next: int, runId: Id, jobId: Id)
    ensures var (c, answer) := PgEnqueue(b, id, dueAt, next, runId, jobId);
            (answer.None? <==> id !in b.schedules || dueAt < b.schedules[id].nextRunAt) && (answer.None? ==> c == b) &&
            (answer.Some? ==>
               id in c.schedules && c.schedules[id].nextRunAt == next && c.schedules == b.schedules[id := c.schedules[id]] &&
               if (id, dueAt) in b.results then
                 c.results == b.results && answer.value == Ticket(b.results[(id, dueAt)].runId, b.results[(id, dueAt)].jobId, true)
               else
                 c.results == b.results[(id, dueAt) := answer.value] && answer.value == Ticket(runId, jobId, false))
  {
  }

  /** In every reachable state the two stores' calls change the board alike, although one guards
      with equality and the other with at-or-before; they differ only in answering a repeat. */
  lemma PgGuardAgrees(crons: Crons, s: System, es: seq<Event>, n: nat, poller: Id, runId: Id, jobId: Id)
    requires Start(crons, s) && n <= |es| && poller in Run(crons, s, es, n).pollers
    requires !Run(crons, s, es, n).pollers[poller].Idle?
    ensures var b, p := Run(crons, s, es, n).board, Run(crons, s, es, n).pollers[poller];
            var mem, pg := Enqueue(b, p.id, p.due, p.next, runId, jobId), PgEnqueue(b, p.id, p.due, p.next, runId, jobId);
            PgAdvance(b, p.id, p.due, p.next) == Advance(b, p.id, p.due, p.next) &&
            pg.0 == mem.0 && pg.1 == if mem.1.Some? && mem.1.value.duplicate then None else mem.1
  {
    RunKeeps(crons, s, es, n, n);
    var b, p := Run(crons, s, es, n).board, Run(crons, s, es, n).pollers[poller];
    assert PollerOk(crons, b, p);
  }
}
