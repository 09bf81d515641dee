/** A poller that no other comes between leaves the board as one poll of the scheduler does. */
module PollersAlone {
  import opened Wrappers
  import opened LeaseMachine
  import opened ScheduleBoard
  import opened Cron
  import opened SchedulePolling
  import opened Scheduler

  /** The run and job ids drawn by the poller's store calls. */
  type Draws = nat -> (Id, Id)

  function TicketsDrawn(draws: Draws, n: nat): (tickets: seq<Ticket>)
    ensures |tickets| == n && forall k :: 0 <= k < n ==> tickets[k] == Ticket(draws(k).0, draws(k).1, false)
  {
    seq(n, k requires 0 <= k < n => Ticket(draws(k).0, draws(k).1, false))
  }

  /** The system after the poller looked at the schedule and made `n` store calls. */
  function Alone(crons: Crons, s: System, poller: Id, id: Id, now: int, draws: Draws, n: nat): System {
    if n == 0 then Step(crons, s, Look(poller, id, now))
    else Step(crons, Alone(crons, s, poller, id, now, draws, n - 1), Act(poller, draws(n - 1).0, draws(n - 1).1))
  }

  /** A schedule that is disabled or not due yet makes a poller do nothing at all. */
  lemma NothingDue(crons: Crons, s: System, poller: Id, id: Id, now: int, draws: Draws, n: nat)
    requires id in s.board.schedules && (!s.board.schedules[id].enabled || now < s.board.schedules[id].nextRunAt)
    ensures Alone(crons, s, poller, id, now, draws, n).board == s.board
    ensures poller in Alone(crons, s, poller, id, now, draws, n).pollers && Alone(crons, s, poller, id, now, draws, n).pollers[poller] == Idle
  {
  }

  ghost predicate IsDue(crons: Crons, s: System, id: Id, now: int) {
    AreCrons(crons) && ResultsBehind(s.board) && id in s.board.schedules && s.board.schedules[id].enabled &&
    s.board.schedules[id].nextRunAt <= now && crons(id)(s.board.schedules[id].nextRunAt).Some?
  }

  lemma DueMeans(crons: Crons, s: System, id: Id, now: int)
    requires IsDue(crons, s, id, now)
    ensures IsCron(crons(id)) && ResultsBehind(s.board) && id in s.board.schedules && s.board.schedules[id].nextRunAt <= now
  {
  }

  /** `skip`, alone: one call, straight to the least occurrence after `now`, and no result. */
  lemma SkipsAlone(crons: Crons, s: System, poller: Id, id: Id, now: int, draws: Draws)
    requires IsDue(crons, s, id, now) && s.board.schedules[id].policy == Skip
    ensures var b, next := Alone(crons, s, poller, id, now, draws, 1).board, crons(id)(now);
            b == if next.None? then s.board else s.board.(schedules := Pointing(s.board.schedules, id, next.value))
  {
    assert Alone(crons, s, poller, id, now, draws, 0) == Step(crons, s, Look(poller, id, now));
  }

  /** `run_once`, alone: one call, one result for the occurrence pointed at. */
  lemma RunsOnceAlone(crons: Crons, s: System, poller: Id, id: Id, now: int, draws: Draws)
    requires IsDue(crons, s, id, now) && s.board.schedules[id].policy == RunOnce
    ensures var b, from, next := Alone(crons, s, poller, id, now, draws, 1).board, s.board.schedules[id].nextRunAt, crons(id)(now);
            b == if next.None? then s.board
                 else Board(Pointing(s.board.schedules, id, next.value),
                            s.board.results[(id, from) := Ticket(draws(0).0, draws(0).1, false)])
  {
    assert Alone(crons, s, poller, id, now, draws, 0) == Step(crons, s, Look(poller, id, now));
    assert (id, s.board.schedules[id].nextRunAt) !in s.board.results;
  }

  /** Where a catch-up stands after it has enqueued the first `n` due points. */
  ghost predicate StandsAt(crons: Crons, s: System, poller: Id, id: Id, now: int, draws: Draws, n: nat, t: System)
    requires IsDue(crons, s, id, now) && IsCron(crons(id))
  {
    var due := Due(crons(id), s.board.schedules[id].nextRunAt, now);
    n < |due| && CaughtUpTo(s.board, t.board, id, due, TicketsDrawn(draws, n)) && poller in t.pollers &&
    t.pollers[poller] ==
      if crons(id)(due[n]).None? then Idle else CatchingUp(id, due[n], crons(id)(due[n]).value, now, n)
  }

  lemma {:induction false} CatchesUpAlone(crons: Crons, s: System, poller: Id, id: Id, now: int, draws: Draws, n: nat)
    requires IsDue(crons, s, id, now) && s.board.schedules[id].policy == CatchUp && IsCron(crons(id))
    requires n <= CaughtUp(Due(crons(id), s.board.schedules[id].nextRunAt, now))
    ensures StandsAt(crons, s, poller, id, now, draws, n, Alone(crons, s, poller, id, now, draws, n))
  {
    if n == 0 {
      assert Due(crons(id), s.board.schedules[id].nextRunAt, now)[..0] == [];
    } else {
      CatchesUpAlone(crons, s, poller, id, now, draws, n - 1);
      OneMoreAlone(crons, s, poller, id, now, draws, n - 1, Alone(crons, s, poller, id, now, draws, n - 1));
    }
  }

  /** One enqueueing call of a catch-up nobody came between, and where the poller goes from there. */
  lemma EnqueueStep(crons: Crons, t: System, poller: Id, runId: Id, jobId: Id)
    requires poller in t.pollers && t.pollers[poller].CatchingUp?
    requires var p := t.pollers[poller];
             p.next <= p.now && p.processed < CATCH_UP_LIMIT && p.id in t.board.schedules &&
             t.board.schedules[p.id].nextRunAt == p.due && (p.id, p.due) !in t.board.results
    ensures var p, next := t.pollers[poller], Step(crons, t, Act(poller, runId, jobId));
            next.board == Board(Pointing(t.board.schedules, p.id, p.next), t.board.results[(p.id, p.due) := Ticket(runId, jobId, false)]) &&
            poller in next.pollers &&
            next.pollers[poller] == if crons(p.id)(p.next).None? then Idle
                                    else CatchingUp(p.id, p.next, crons(p.id)(p.next).value, p.now, p.processed + 1)
  {
  }

  /** The call after the last of them: it moves the pointer past `now`, or gives up. */
  lemma LastStep(crons: Crons, t: System, poller: Id, runId: Id, jobId: Id)
    requires poller in t.pollers
    requires var p := t.pollers[poller];
             p == Idle || (p.CatchingUp? && p.id in t.board.schedules && t.board.schedules[p.id].nextRunAt == p.due &&
                           (p.now < p.next || p.processed >= CATCH_UP_LIMIT))
    ensures var p, next := t.pollers[poller], Step(crons, t, Act(poller, runId, jobId));
            next.board == (if p == Idle || p.next <= p.now then t.board
                           else t.board.(schedules := Pointing(t.board.schedules, p.id, p.next))) &&
            poller in next.pollers && next.pollers[poller] == Idle
  {
  }

  lemma OneMoreAlone(crons: Crons, s: System, poller: Id, id: Id, now: int, draws: Draws, n: nat, t: System)
    requires IsDue(crons, s, id, now) && IsCron(crons(id)) && StandsAt(crons, s, poller, id, now, draws, n, t)
    requires n < CaughtUp(Due(crons(id), s.board.schedules[id].nextRunAt, now))
    ensures StandsAt(crons, s, poller, id, now, draws, n + 1, Step(crons, t, Act(poller, draws(n).0, draws(n).1)))
  {
    hide *;
    DueMeans(crons, s, id, now);
    var cron, from := crons(id), s.board.schedules[id].nextRunAt;
    StandsMeans(crons, s, poller, id, now, draws, n, t);
    var due, tickets, ticket := Due(cron, from, now), TicketsDrawn(draws, n), Ticket(draws(n).0, draws(n).1, false);
    CaughtUpCount(due);
    NextDue(cron, from, now, n);
    NotYetRecorded(cron, s.board, id, now, n, tickets);
    CaughtUpMeans(s.board, t.board, id, due, tickets);
    EnqueueStep(crons, t, poller, draws(n).0, draws(n).1);
    var next := Step(crons, t, Act(poller, draws(n).0, draws(n).1));
    OneMoreCaughtUp(s.board, t.board, next.board, id, due, tickets, ticket);
    assert TicketsDrawn(draws, n + 1) == tickets + [ticket];
    MeansStands(crons, s, poller, id, now, draws, n + 1, next);
  }

  lemma StandsMeans(crons: Crons, s: System, poller: Id, id: Id, now: int, draws: Draws, n: nat, t: System)
    requires IsDue(crons, s, id, now) && IsCron(crons(id)) && StandsAt(crons, s, poller, id, now, draws, n, t)
    ensures ResultsBehind(s.board) && id in s.board.schedules && s.board.schedules[id].nextRunAt <= now
    ensures var due := Due(crons(id), s.board.schedules[id].nextRunAt, now);
            n < |due| && CaughtUpTo(s.board, t.board, id, due, TicketsDrawn(draws, n)) && poller in t.pollers &&
            t.pollers[poller] ==
              if crons(id)(due[n]).None? then Idle else CatchingUp(id, due[n], crons(id)(due[n]).value, now, n)
  {
  }

  lemma MeansStands(crons: Crons, s: System, poller: Id, id: Id, now: int, draws: Draws, n: nat, t: System)
    requires IsDue(crons, s, id, now) && IsCron(crons(id)) && id in s.board.schedules
    requires var due := Due(crons(id), s.board.schedules[id].nextRunAt, now);
             n < |due| && CaughtUpTo(s.board, t.board, id, due, TicketsDrawn(draws, n)) && poller in t.pollers &&
             t.pollers[poller] ==
               if crons(id)(due[n]).None? then Idle else CatchingUp(id, due[n], crons(id)(due[n]).value, now, n)
    ensures StandsAt(crons, s, poller, id, now, draws, n, t)
  {
  }

  lemma CaughtUpMeans(start: Board, b: Board, id: Id, due: seq<int>, tickets: seq<Ticket>)
    requires id in start.schedules && |tickets| < |due| && CaughtUpTo(start, b, id, due, tickets)
    ensures id in b.schedules && b.schedules[id].nextRunAt == due[|tickets|]
    ensures b.results == Recorded(start.results, id, due[..|tickets|], tickets)
    ensures b.schedules == Pointing(start.schedules, id, due[|tickets|])
  {
  }

  /** `catch_up`, alone: every due point but the latest, up to the limit, gets its result, and the
      pointer ends where the scheduler's loop leaves it. */
  lemma CaughtUpAlone(crons: Crons, s: System, poller: Id, id: Id, now: int, draws: Draws)
    requires IsDue(crons, s, id, now) && s.board.schedules[id].policy == CatchUp && IsCron(crons(id))
    ensures var from := s.board.schedules[id].nextRunAt;
            var due := Due(crons(id), from, now);
            var t := Alone(crons, s, poller, id, now, draws, CaughtUp(due) + 1);
            t.board == Board(Pointing(s.board.schedules, id, CatchUpPointer(crons(id), from, now)),
                             Recorded(s.board.results, id, due[..CaughtUp(due)], TicketsDrawn(draws, CaughtUp(due)))) &&
            poller in t.pollers && t.pollers[poller] == Idle
  {
    hide *;
    DueMeans(crons, s, id, now);
    var cron, from := crons(id), s.board.schedules[id].nextRunAt;
    var due := Due(cron, from, now);
    var n := CaughtUp(due);
    var t := Alone(crons, s, poller, id, now, draws, n);
    CatchesUpAlone(crons, s, poller, id, now, draws, n);
    StandsMeans(crons, s, poller, id, now, draws, n, t);
    CaughtUpMeans(s.board, t.board, id, due, TicketsDrawn(draws, n));
    CaughtUpCount(due);
    NextDue(cron, from, now, n);
    IsLater(cron, now);
    LastStep(crons, t, poller, draws(n).0, draws(n).1);
    EndsAt(cron, from, now);
    PointingTwice(s.board.schedules, id, due[n], CatchUpPointer(cron, from, now));
    AloneStep(crons, s, poller, id, now, draws, n);
  }

  lemma EndsAt(cron: Cron, from: int, now: int)
    requires IsCron(cron) && from <= now
    ensures var due := Due(cron, from, now);
            var n := CaughtUp(due);
            n < |due| && CatchUpPointer(cron, from, now) == if n == |due| - 1 && cron(now).Some? then cron(now).value else due[n]
  {
  }

  lemma AloneStep(crons: Crons, s: System, poller: Id, id: Id, now: int, draws: Draws, n: nat)
    ensures Alone(crons, s, poller, id, now, draws, n + 1) ==
            Step(crons, Alone(crons, s, poller, id, now, draws, n), Act(poller, draws(n).0, draws(n).1))
  {
  }
}
