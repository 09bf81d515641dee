/** One poll of the schedules by a worker that has the store to itself: the three misfire
    policies as the loops the scheduler runs, against the store it changes. */
module Scheduler {
  import opened Wrappers
  import opened LeaseMachine
  import opened ScheduleBoard
  import opened Cron
  import opened SchedulePolling
  import opened InMemoryStore
  import Q = LeaseQueue

  /** `Unsupported` is the error a poll throws: no future occurrence, or too many missed ones. */
  datatype Outcome = Polled(tickets: seq<Ticket>) | Unsupported(tickets: seq<Ticket>)

  /** The schedules with one pointer moved. */
  function Pointing(schedules: map<Id, Schedule>, id: Id, pointer: int): map<Id, Schedule>
    requires id in schedules
  {
    schedules[id := schedules[id].(nextRunAt := pointer)]
  }

  /** The job is one for the occurrence: queued, at its first attempt, not to be taken before the
      occurrence was due, with all that the schedule's request asks for. */
  ghost predicate IsScheduledJob(cfg: Q.Config, job: Q.Job, request: Request, dueAt: int, ticket: Ticket, clock: int) {
    job.id == ticket.jobId && job.runId == ticket.runId && job.availableAt == dueAt &&
    job.workspaceId == request.workspaceId && job.projectId == request.projectId &&
    job.requiredCapabilities == request.requiredCapabilities && job.labels == request.labels &&
    (request.priority.Some? ==> job.priority == request.priority.value) && (request.priority.None? ==> job.priority == 0) &&
    job.state == Queued && job.attempt == 1 && job.maxAttempts == cfg.maxAttempts && job.fencingToken == 0 &&
    !job.cancelRequested && job.leaseId == None && job.leaseOwner == None && job.leaseExpiresAt == None && job.error == None &&
    job.createdAt == clock && job.updatedAt == clock
  }

  /** The jobs are those of before, as they were, and one new job for each ticket and its point. */
  ghost predicate JobsAdded(cfg: Q.Config, before: map<Id, Q.Job>, after: map<Id, Q.Job>, request: Request, points: seq<int>,
      tickets: seq<Ticket>, clock: int)
  {
    |tickets| <= |points| &&
    (forall id :: id in before ==> id in after && after[id] == before[id]) &&
    (forall id :: id in after && id !in before ==> exists k :: 0 <= k < |tickets| && tickets[k].jobId == id) &&
    forall k :: 0 <= k < |tickets| ==>
      !tickets[k].duplicate && tickets[k].jobId !in before && tickets[k].jobId in after &&
      IsScheduledJob(cfg, after[tickets[k].jobId], request, points[k], tickets[k], clock)
  }

  lemma NoJobAdded(cfg: Q.Config, jobs: map<Id, Q.Job>, request: Request, points: seq<int>, clock: int)
    ensures JobsAdded(cfg, jobs, jobs, request, points, [], clock)
  {
  }

  lemma OneMoreJobAdded(cfg: Q.Config, before: map<Id, Q.Job>, jobs: map<Id, Q.Job>, after: map<Id, Q.Job>, request: Request,
      points: seq<int>, tickets: seq<Ticket>, ticket: Ticket, clock: int)
    requires JobsAdded(cfg, before, jobs, request, points, tickets, clock) && |tickets| < |points|
    requires IsAdded(cfg, jobs, after, request, points[|tickets|], ticket, clock)
    ensures JobsAdded(cfg, before, after, request, points, tickets + [ticket], clock)
  {
    hide IsScheduledJob;
    var more := tickets + [ticket];
    assert forall k :: 0 <= k < |tickets| ==> more[k] == tickets[k];
    assert more[|tickets|] == ticket;
  }

  ghost predicate IsAdded(cfg: Q.Config, jobs: map<Id, Q.Job>, after: map<Id, Q.Job>, request: Request, dueAt: int, ticket: Ticket, clock: int) {
    !ticket.duplicate && ticket.jobId !in jobs && ticket.jobId in after && after == jobs[ticket.jobId := after[ticket.jobId]] &&
    IsScheduledJob(cfg, after[ticket.jobId], request, dueAt, ticket, clock)
  }

  /** `skip` discards every missed occurrence: one compare-and-advance straight to the least
      occurrence after `now`, which succeeds exactly when the snapshot is still current. */
  method SkipMissed(store: InMemoryExecutionStore, id: Id, snapshot: Schedule, cron: Cron, now: int, first: int)
    returns (outcome: Outcome)
    requires store.Valid() && IsCron(cron) && snapshot.nextRunAt <= now && cron(snapshot.nextRunAt) == Some(first)
    modifies store`schedules
    ensures store.Valid() && outcome.tickets == []
    ensures outcome.Polled? <==> cron(now).Some?
    ensures store.Board() == if cron(now).Some? then Advance(old(store.Board()), id, snapshot.nextRunAt, cron(now).value).0
                             else old(store.Board())
  {
    var next := first;
    ghost var last := snapshot.nextRunAt;
    while next <= now
      invariant last <= now && cron(last) == Some(next)
      decreases now - next
    {
      last := next;
      var following := cron(next);
      if following.None? {
        return Unsupported([]);
      }
      next := following.value;
    }
    var _ := store.AdvanceSchedule(id, snapshot.nextRunAt, next);
    outcome := Polled([]);
  }

  /** `run_once` enqueues the pointed-at occurrence for the whole missed window and aims at the
      least occurrence after `now`. */
  method RunOnceMissed(store: InMemoryExecutionStore, id: Id, snapshot: Schedule, cron: Cron, now: int, clock: int)
    returns (outcome: Outcome, ghost runId: Id, ghost jobId: Id)
    requires store.Valid()
    modifies store`jobs, store`order, store`schedules, store`scheduledResults, store`nextUuid
    ensures store.Valid() && jobId !in old(store.jobs)
    ensures outcome.Polled? <==> cron(now).Some?
    ensures outcome.Unsupported? ==> outcome.tickets == [] && store.Board() == old(store.Board()) && store.Queue() == old(store.Queue())
    ensures outcome.Polled? ==>
              var call := Enqueue(old(store.Board()), id, snapshot.nextRunAt, cron(now).value, runId, jobId);
              store.Board() == call.0 && outcome.tickets == (if call.1.Some? then [call.1.value] else []) &&
              store.Queue() == if call.1.Some? && !call.1.value.duplicate
                               then Q.AddJob(store.cfg, old(store.Queue()), SeedFor(snapshot.request, snapshot.nextRunAt, runId, jobId), clock)
                               else old(store.Queue())
    ensures outcome.tickets != [] && !outcome.tickets[0].duplicate ==>
              IsAdded(store.cfg, old(store.jobs), store.jobs, snapshot.request, snapshot.nextRunAt, outcome.tickets[0], clock)
  {
    runId, jobId := store.nextUuid, store.nextUuid;
    var dueAt := snapshot.nextRunAt;
    var following := cron(now);
    if following.None? {
      return Unsupported([]), runId, jobId;
    }
    var ticket;
    ticket, runId, jobId := store.EnqueueScheduledRun(id, snapshot.request, dueAt, following.value, clock);
    outcome := Polled(if ticket.Some? then [ticket.value] else []);
  }

  /** How many due points a catch-up enqueues: all but the latest, up to the limit. */
  function CaughtUp(due: seq<int>): nat {
    if |due| == 0 then 0 else if |due| - 1 <= CATCH_UP_LIMIT then |due| - 1 else CATCH_UP_LIMIT
  }

  /** The results once each point has been turned into its ticket, in order. */
  function Recorded(results: map<Occurrence, Ticket>, id: Id, points: seq<int>, tickets: seq<Ticket>): map<Occurrence, Ticket>
    requires |points| == |tickets|
  {
    if points == [] then results
    else Recorded(results, id, points[..|points| - 1], tickets[..|tickets| - 1])[(id, points[|points| - 1]) := tickets[|tickets| - 1]]
  }

  lemma RecordedOneMore(results: map<Occurrence, Ticket>, id: Id, points: seq<int>, tickets: seq<Ticket>, point: int, ticket: Ticket)
    requires |points| == |tickets|
    ensures Recorded(results, id, points + [point], tickets + [ticket]) == Recorded(results, id, points, tickets)[(id, point) := ticket]
  {
  }

  lemma NothingRecorded(results: map<Occurrence, Ticket>, id: Id)
    ensures Recorded(results, id, [], []) == results
  {
  }

  /** Recording distinct new points adds exactly those points, each with its own ticket. */
  lemma {:induction false} RecordedMeans(results: map<Occurrence, Ticket>, id: Id, points: seq<int>, tickets: seq<Ticket>, k: Occurrence)
    requires |points| == |tickets|
    requires forall i, j :: 0 <= i < j < |points| ==> points[i] != points[j]
    ensures k in Recorded(results, id, points, tickets) <==> k in results || (k.0 == id && k.1 in points)
    ensures forall i :: 0 <= i < |points| && k == (id, points[i]) ==> Recorded(results, id, points, tickets)[k] == tickets[i]
    ensures k in results && !(k.0 == id && k.1 in points) ==> Recorded(results, id, points, tickets)[k] == results[k]
  {
    hide *;
    if points == [] {
      assert tickets == [];
      NothingRecorded(results, id);
    } else {
      var front, point := points[..|points| - 1], points[|points| - 1];
      var fronts, ticket := tickets[..|tickets| - 1], tickets[|tickets| - 1];
      RecordedMeans(results, id, front, fronts, k);
      RecordedOneMore(results, id, front, fronts, point, ticket);
      assert points == front + [point] && tickets == fronts + [ticket];
    }
  }

  lemma {:induction false} DueIncreases(cron: Cron, from: int, now: int, i: nat, k: nat)
    requires IsCron(cron) && from <= now && i < k < |Due(cron, from, now)|
    ensures Due(cron, from, now)[i] < Due(cron, from, now)[k]
  {
    DueChain(cron, from, now, k - 1);
    if i < k - 1 {
      DueIncreases(cron, from, now, i, k - 1);
    }
  }

  /** The `k`-th due point has no result yet when only the points before it were recorded. */
  lemma NotYetRecorded(cron: Cron, start: Board, id: Id, now: int, k: nat, tickets: seq<Ticket>)
    requires IsCron(cron) && ResultsBehind(start) && id in start.schedules && start.schedules[id].nextRunAt <= now
    requires k < |Due(cron, start.schedules[id].nextRunAt, now)| && |tickets| == k
    ensures var due := Due(cron, start.schedules[id].nextRunAt, now);
            (id, due[k]) !in Recorded(start.results, id, due[..k], tickets)
  {
    var from := start.schedules[id].nextRunAt;
    var due := Due(cron, from, now);
    forall i, j | 0 <= i < j <= k ensures due[i] < due[j] {
      DueIncreases(cron, from, now, i, j);
    }
    DueChain(cron, from, now, k);
    RecordedMeans(start.results, id, due[..k], tickets, (id, due[k]));
  }

  /** The point after the `k`-th due one is due too, or it is the least occurrence after `now`. */
  lemma NextDue(cron: Cron, from: int, now: int, k: nat)
    requires IsCron(cron) && from <= now && k < |Due(cron, from, now)|
    ensures var due := Due(cron, from, now);
            due[k] <= now &&
            if k + 1 < |due| then cron(due[k]) == Some(due[k + 1]) && due[k + 1] <= now
            else cron(due[k]) == cron(now)
  {
    DueChain(cron, from, now, k);
    if k + 1 < |Due(cron, from, now)| {
      DueChain(cron, from, now, k + 1);
    }
  }

  function JobsOf(tickets: seq<Ticket>): seq<Id> {
    if tickets == [] then [] else JobsOf(tickets[..|tickets| - 1]) + [tickets[|tickets| - 1].jobId]
  }

  /** One turn of the catch-up loop: the pointed-at occurrence becomes a job and the pointer moves. */
  method EnqueueDue(store: InMemoryExecutionStore, id: Id, request: Request, dueAt: int, next: int, clock: int)
    returns (ticket: Ticket)
    requires store.Valid() && id in store.schedules && store.schedules[id].nextRunAt == dueAt
    requires (id, dueAt) !in store.scheduledResults
    modifies store`jobs, store`order, store`schedules, store`scheduledResults, store`nextUuid
    ensures store.Valid() && !ticket.duplicate
    ensures store.schedules == Pointing(old(store.schedules), id, next)
    ensures store.scheduledResults == old(store.scheduledResults)[(id, dueAt) := ticket]
    ensures store.order == old(store.order) + [ticket.jobId]
    ensures IsAdded(store.cfg, old(store.jobs), store.jobs, request, dueAt, ticket, clock)
  {
    var result, _, _ := store.EnqueueScheduledRun(id, request, dueAt, next, clock);
    ticket := result.value;
  }

  /** What a catch-up has done once it has enqueued `tickets`, the first of the due points. */
  ghost predicate CaughtUpTo(start: Board, now: Board, id: Id, due: seq<int>, tickets: seq<Ticket>)
    requires id in start.schedules && |tickets| < |due|
  {
    now.schedules == Pointing(start.schedules, id, due[|tickets|]) &&
    now.results == Recorded(start.results, id, due[..|tickets|], tickets)
  }

  lemma OneMoreCaughtUp(start: Board, before: Board, after: Board, id: Id, due: seq<int>, tickets: seq<Ticket>, ticket: Ticket)
    requires id in start.schedules && |tickets| + 1 < |due|
    requires CaughtUpTo(start, before, id, due, tickets)
    requires after == Board(Pointing(before.schedules, id, due[|tickets| + 1]), before.results[(id, due[|tickets|]) := ticket])
    ensures CaughtUpTo(start, after, id, due, tickets + [ticket])
  {
    var k := |tickets|;
    PointingTwice(start.schedules, id, due[k], due[k + 1]);
    RecordedOneMore(start.results, id, due[..k], tickets, due[k], ticket);
    assert due[..k + 1] == due[..k] + [due[k]];
  }

  lemma JobsOfOneMore(tickets: seq<Ticket>, ticket: Ticket)
    ensures JobsOf(tickets + [ticket]) == JobsOf(tickets) + [ticket.jobId]
  {
  }

  lemma PointingTwice(schedules: map<Id, Schedule>, id: Id, a: int, b: int)
    requires id in schedules
    ensures Pointing(Pointing(schedules, id, a), id, b) == Pointing(schedules, id, b)
  {
  }

  /** One turn of the loop, against all it has caught up since `start`. */
  method CatchUpOne(store: InMemoryExecutionStore, id: Id, request: Request, cron: Cron, now: int, ghost start: Board,
      results: seq<Ticket>, dueAt: int, next: int, clock: int) returns (ticket: Ticket)
    requires store.Valid() && IsCron(cron) && ResultsBehind(start)
    requires id in start.schedules && start.schedules[id].nextRunAt <= now
    requires var due := Due(cron, start.schedules[id].nextRunAt, now);
             |results| + 1 < |due| && dueAt == due[|results|] && next == due[|results| + 1] &&
             CaughtUpTo(start, store.Board(), id, due, results)
    modifies store`jobs, store`order, store`schedules, store`scheduledResults, store`nextUuid
    ensures store.Valid() && store.order == old(store.order) + [ticket.jobId]
    ensures CaughtUpTo(start, store.Board(), id, Due(cron, start.schedules[id].nextRunAt, now), results + [ticket])
    ensures IsAdded(store.cfg, old(store.jobs), store.jobs, request, dueAt, ticket, clock)
  {
    NotYetRecorded(cron, start, id, now, |results|, results);
    ghost var before := store.Board();
    ticket := EnqueueDue(store, id, request, dueAt, next, clock);
    OneMoreCaughtUp(start, before, store.Board(), id, Due(cron, start.schedules[id].nextRunAt, now), results, ticket);
  }

  lemma BoardIs(store: InMemoryExecutionStore)
    ensures store.Board() == Board(store.schedules, store.scheduledResults)
  {
  }

  lemma IsLater(cron: Cron, x: int)
    requires IsCron(cron)
    ensures cron(x).Some? ==> x < cron(x).value
  {
  }

  lemma CaughtUpCount(due: seq<int>)
    requires due != []
    ensures CaughtUp(due) == if |due| - 1 <= CATCH_UP_LIMIT then |due| - 1 else CATCH_UP_LIMIT
  {
  }

  lemma NothingCaughtUp(start: Board, id: Id, due: seq<int>)
    requires id in start.schedules && due != [] && due[0] == start.schedules[id].nextRunAt
    ensures CaughtUpTo(start, start, id, due, []) && JobsOf([]) == []
  {
    assert due[..0] == [];
  }

  /** The catch-up loop: enqueue the pointed-at occurrence while the one after it is due too. */
  method CatchUpLoop(store: InMemoryExecutionStore, id: Id, snapshot: Schedule, cron: Cron, now: int, first: int, clock: int)
    returns (results: seq<Ticket>, dueAt: int, next: Option<int>)
    requires store.Valid() && IsCron(cron) && ResultsBehind(store.Board())
    requires id in store.schedules && store.schedules[id].nextRunAt == snapshot.nextRunAt
    requires snapshot.nextRunAt <= now && cron(snapshot.nextRunAt) == Some(first)
    modifies store`jobs, store`order, store`schedules, store`scheduledResults, store`nextUuid
    ensures store.Valid() && store.order == old(store.order) + JobsOf(results)
    ensures var due := Due(cron, snapshot.nextRunAt, now);
            |results| == CaughtUp(due) < |due| && dueAt == due[|results|] &&
            CaughtUpTo(old(store.Board()), store.Board(), id, due, results) &&
            JobsAdded(store.cfg, old(store.jobs), store.jobs, snapshot.request, due, results, clock) &&
            next == if CaughtUp(due) == |due| - 1 then cron(now) else None
  {
    hide *;
    ghost var due := Due(cron, snapshot.nextRunAt, now);
    ghost var start := store.Board();
    BoardIs(store);
    results, dueAt := [], snapshot.nextRunAt;
    next := Some(first);
    CaughtUpCount(due);
    NothingCaughtUp(start, id, due);
    NoJobAdded(store.cfg, store.jobs, snapshot.request, due, clock);
    var processed := 0;
    while next.value <= now
      invariant 0 <= processed == |results| < |due| && processed <= CATCH_UP_LIMIT
      invariant dueAt == due[processed] && next.Some? && cron(dueAt) == next
      invariant store.Valid() && store.order == old(store.order) + JobsOf(results)
      invariant CaughtUpTo(start, store.Board(), id, due, results)
      invariant JobsAdded(store.cfg, old(store.jobs), store.jobs, snapshot.request, due, results, clock)
      decreases now - next.value
    {
      NextDue(cron, snapshot.nextRunAt, now, processed);
      IsLater(cron, now);
      IsLater(cron, next.value);
      processed := processed + 1;
      if processed > CATCH_UP_LIMIT {
        next := None;
        return;
      }
      ghost var jobs := store.jobs;
      var ticket := CatchUpOne(store, id, snapshot.request, cron, now, start, results, dueAt, next.value, clock);
      OneMoreJobAdded(store.cfg, old(store.jobs), jobs, store.jobs, snapshot.request, due, results, ticket, clock);
      JobsOfOneMore(results, ticket);
      results, dueAt := results + [ticket], next.value;
      next := cron(dueAt);
      if next.None? {
        NextDue(cron, snapshot.nextRunAt, now, processed);
        return;
      }
    }
    NextDue(cron, snapshot.nextRunAt, now, processed);
  }

  /** `catch_up`, on a schedule nobody else is polling, enqueues once each and in order every due
      point but the latest, up to the limit, one job per point added to the end of the queue. It
      leaves the pointer at the least occurrence after `now`, or, when it throws because more
      than the limit were missed, on the first point it did not enqueue. */
  method CatchUpMissed(store: InMemoryExecutionStore, id: Id, snapshot: Schedule, cron: Cron, now: int, first: int, clock: int)
    returns (outcome: Outcome)
    requires store.Valid() && IsCron(cron) && ResultsBehind(store.Board())
    requires id in store.schedules && store.schedules[id].nextRunAt == snapshot.nextRunAt
    requires snapshot.nextRunAt <= now && cron(snapshot.nextRunAt) == Some(first)
    modifies store`jobs, store`order, store`schedules, store`scheduledResults, store`nextUuid
    ensures store.Valid() && store.order == old(store.order) + JobsOf(outcome.tickets)
    ensures var due := Due(cron, snapshot.nextRunAt, now);
            |outcome.tickets| == CaughtUp(due) < |due| &&
            (outcome.Polled? <==> CaughtUp(due) == |due| - 1 && cron(now).Some?) &&
            store.scheduledResults == Recorded(old(store.scheduledResults), id, due[..CaughtUp(due)], outcome.tickets) &&
            store.schedules == Pointing(old(store.schedules), id, CatchUpPointer(cron, snapshot.nextRunAt, now)) &&
            JobsAdded(store.cfg, old(store.jobs), store.jobs, snapshot.request, due, outcome.tickets, clock)
  {
    hide JobsAdded;
    var results, dueAt, next := CatchUpLoop(store, id, snapshot, cron, now, first, clock);
    if next.None? {
      return Unsupported(results);
    }
    var _ := store.AdvanceSchedule(id, dueAt, next.value);
    outcome := Polled(results);
  }

  // ---- One poll ----

  /** How many jobs a policy makes of what is due. */
  function JobsMade(policy: Policy, due: seq<int>): nat {
    match policy
    case Skip => 0
    case RunOnce => 1
    case CatchUp => CaughtUp(due)
  }

  lemma RecordedStaysBehind(cron: Cron, b: Board, c: Board, id: Id, now: int)
    requires IsCron(cron) && ResultsBehind(b) && id in b.schedules && b.schedules[id].nextRunAt <= now
    requires id in c.schedules && c.schedules == Pointing(b.schedules, id, c.schedules[id].nextRunAt)
    requires b.schedules[id].nextRunAt <= c.schedules[id].nextRunAt
    requires forall k :: k in c.results ==>
               k in b.results || (k.0 == id && k.1 < c.schedules[id].nextRunAt)
    ensures ResultsBehind(c)
  {
  }

  /** Whatever its policy, a due schedule nobody else is polling is left at the least occurrence
      after `now`, with one result per job its policy makes and no other schedule touched. A poll
      that throws leaves it at an occurrence the schedule still has to answer for. */
  method PollSchedule(store: InMemoryExecutionStore, id: Id, cron: Cron, now: int, clock: int) returns (outcome: Outcome)
    requires store.Valid() && IsCron(cron) && ResultsBehind(store.Board())
    requires id in store.schedules && store.schedules[id].nextRunAt <= now
    modifies store`jobs, store`order, store`schedules, store`scheduledResults, store`nextUuid
    ensures store.Valid() && ResultsBehind(store.Board())
    ensures id in store.schedules && store.schedules == Pointing(old(store.schedules), id, store.schedules[id].nextRunAt)
    ensures outcome.Polled? ==>
              var s := old(store.schedules)[id];
              cron(now) == Some(store.schedules[id].nextRunAt) && !s.hasBlackoutWindows && s.timezoneIsValid &&
              |outcome.tickets| == JobsMade(s.policy, Due(cron, s.nextRunAt, now)) &&
              store.scheduledResults ==
              Recorded(old(store.scheduledResults), id, Due(cron, s.nextRunAt, now)[..|outcome.tickets|], outcome.tickets)
    ensures outcome.Unsupported? ==> store.schedules[id].nextRunAt in Due(cron, old(store.schedules)[id].nextRunAt, now)
    ensures var s := old(store.schedules)[id];
            JobsAdded(store.cfg, old(store.jobs), store.jobs, s.request, Due(cron, s.nextRunAt, now), outcome.tickets, clock)
  {
    hide *;
    var snapshot := store.schedules[id];
    ghost var before := store.Board();
    ghost var due := Due(cron, snapshot.nextRunAt, now);
    BoardIs(store);
    SameJobs(store, store.Queue());
    NoJobAdded(store.cfg, store.jobs, snapshot.request, due, clock);
    RefusalLeaves(cron, before, id, now);
    PollMeans(cron, before, before, id, now, Unsupported([]));
    if snapshot.hasBlackoutWindows || !snapshot.timezoneIsValid {
      return Unsupported([]);
    }
    var first := cron(snapshot.nextRunAt);
    if first.None? {
      return Unsupported([]);
    }
    match snapshot.policy {
      case Skip =>
        outcome := SkipMissed(store, id, snapshot, cron, now, first.value);
        SkipLeaves(cron, before, store.Board(), id, now, outcome);
      case RunOnce =>
        ghost var runId, jobId;
        outcome, runId, jobId := RunOnceMissed(store, id, snapshot, cron, now, clock);
        OnceLeaves(cron, before, store.Board(), id, now, outcome, runId, jobId);
        if outcome.tickets != [] {
          OneMoreJobAdded(store.cfg, old(store.jobs), old(store.jobs), store.jobs, snapshot.request, due, [], outcome.tickets[0], clock);
          assert [] + [outcome.tickets[0]] == outcome.tickets;
        } else {
          SameJobs(store, old(store.Queue()));
        }
      case CatchUp =>
        outcome := CatchUpMissed(store, id, snapshot, cron, now, first.value, clock);
        BoardIs(store);
        CatchUpLeaves(cron, before, store.Board(), id, now, outcome);
    }
    BoardIs(store);
    PollMeans(cron, before, store.Board(), id, now, outcome);
  }

  /** What a poll leaves on the board. */
  ghost predicate PollLeaves(cron: Cron, b: Board, c: Board, id: Id, now: int, outcome: Outcome)
    requires IsCron(cron) && id in b.schedules
  {
    var s := b.schedules[id];
    ResultsBehind(c) && id in c.schedules && c.schedules == Pointing(b.schedules, id, c.schedules[id].nextRunAt) &&
    (outcome.Polled? ==>
       cron(now) == Some(c.schedules[id].nextRunAt) && |outcome.tickets| == JobsMade(s.policy, Due(cron, s.nextRunAt, now)) <=
       |Due(cron, s.nextRunAt, now)| &&
       c.results == Recorded(b.results, id, Due(cron, s.nextRunAt, now)[..|outcome.tickets|], outcome.tickets)) &&
    (outcome.Unsupported? ==> c.schedules[id].nextRunAt in Due(cron, s.nextRunAt, now))
  }

  lemma PollMeans(cron: Cron, b: Board, c: Board, id: Id, now: int, outcome: Outcome)
    requires IsCron(cron) && id in b.schedules && PollLeaves(cron, b, c, id, now, outcome)
    ensures var s := b.schedules[id];
            ResultsBehind(c) && id in c.schedules && c.schedules == Pointing(b.schedules, id, c.schedules[id].nextRunAt) &&
            (outcome.Polled? ==>
               cron(now) == Some(c.schedules[id].nextRunAt) && |outcome.tickets| == JobsMade(s.policy, Due(cron, s.nextRunAt, now)) <=
               |Due(cron, s.nextRunAt, now)| &&
               c.results == Recorded(b.results, id, Due(cron, s.nextRunAt, now)[..|outcome.tickets|], outcome.tickets)) &&
            (outcome.Unsupported? ==> c.schedules[id].nextRunAt in Due(cron, s.nextRunAt, now))
  {
  }

  /** A poll that refuses a due schedule outright leaves it where it was. */
  lemma RefusalLeaves(cron: Cron, b: Board, id: Id, now: int)
    requires IsCron(cron) && ResultsBehind(b) && id in b.schedules && b.schedules[id].nextRunAt <= now
    ensures PollLeaves(cron, b, b, id, now, Unsupported([]))
  {
    assert Due(cron, b.schedules[id].nextRunAt, now)[0] == b.schedules[id].nextRunAt;
    assert Pointing(b.schedules, id, b.schedules[id].nextRunAt) == b.schedules;
  }

  lemma SkipLeaves(cron: Cron, b: Board, c: Board, id: Id, now: int, outcome: Outcome)
    requires IsCron(cron) && ResultsBehind(b) && id in b.schedules && b.schedules[id].nextRunAt <= now
    requires b.schedules[id].policy == Skip && outcome.tickets == [] && (outcome.Polled? <==> cron(now).Some?)
    requires c == if cron(now).Some? then Advance(b, id, b.schedules[id].nextRunAt, cron(now).value).0 else b
    ensures PollLeaves(cron, b, c, id, now, outcome)
  {
    if outcome.Polled? {
      NothingRecorded(b.results, id);
      IsLater(cron, now);
    } else {
      RefusalLeaves(cron, b, id, now);
    }
  }

  lemma OnceLeaves(cron: Cron, b: Board, c: Board, id: Id, now: int, outcome: Outcome, runId: Id, jobId: Id)
    requires IsCron(cron) && ResultsBehind(b) && id in b.schedules && b.schedules[id].nextRunAt <= now
    requires b.schedules[id].policy == RunOnce && (outcome.Polled? <==> cron(now).Some?)
    requires outcome.Unsupported? ==> outcome.tickets == [] && c == b
    requires outcome.Polled? ==>
               var call := Enqueue(b, id, b.schedules[id].nextRunAt, cron(now).value, runId, jobId);
               c == call.0 && outcome.tickets == if call.1.Some? then [call.1.value] else []
    ensures PollLeaves(cron, b, c, id, now, outcome)
    ensures outcome.tickets != [] ==> !outcome.tickets[0].duplicate
  {
    if outcome.Polled? {
      var from := b.schedules[id].nextRunAt;
      var due := Due(cron, from, now);
      assert (id, from) !in b.results;
      IsLater(cron, now);
      NothingRecorded(b.results, id);
      RecordedOneMore(b.results, id, [], [], from, outcome.tickets[0]);
      assert [] + [from] == due[..1] && [] + [outcome.tickets[0]] == outcome.tickets;
    } else {
      RefusalLeaves(cron, b, id, now);
    }
  }

  lemma CatchUpLeaves(cron: Cron, b: Board, c: Board, id: Id, now: int, outcome: Outcome)
    requires IsCron(cron) && ResultsBehind(b) && id in b.schedules && b.schedules[id].nextRunAt <= now
    requires b.schedules[id].policy == CatchUp
    requires var due := Due(cron, b.schedules[id].nextRunAt, now);
             |outcome.tickets| == CaughtUp(due) < |due| && (outcome.Polled? <==> CaughtUp(due) == |due| - 1 && cron(now).Some?) &&
             c.results == Recorded(b.results, id, due[..CaughtUp(due)], outcome.tickets) &&
             c.schedules == Pointing(b.schedules, id, CatchUpPointer(cron, b.schedules[id].nextRunAt, now))
    ensures PollLeaves(cron, b, c, id, now, outcome)
  {
    CatchUpStaysBehind(cron, b, c, id, now, outcome.tickets);
    hide Recorded;
    hide ResultsBehind;
    hide Due;
  }

  lemma SameJobs(store: InMemoryExecutionStore, q: Q.Queue)
    requires store.Queue() == q
    ensures store.jobs == q.jobs
  {
  }

  lemma CatchUpStaysBehind(cron: Cron, b: Board, c: Board, id: Id, now: int, tickets: seq<Ticket>)
    requires IsCron(cron) && ResultsBehind(b) && id in b.schedules && b.schedules[id].nextRunAt <= now
    requires var due := Due(cron, b.schedules[id].nextRunAt, now);
             |tickets| == CaughtUp(due) && c.results == Recorded(b.results, id, due[..CaughtUp(due)], tickets) &&
             c.schedules == Pointing(b.schedules, id, CatchUpPointer(cron, b.schedules[id].nextRunAt, now))
    ensures ResultsBehind(c)
  {
    var from := b.schedules[id].nextRunAt;
    var due, pointer := Due(cron, from, now), CatchUpPointer(cron, from, now);
    forall i, j | 0 <= i < j < |due| ensures due[i] < due[j] {
      DueIncreases(cron, from, now, i, j);
    }
    forall i | 0 <= i < |due| ensures from <= due[i] <= now {
      DueChain(cron, from, now, i);
    }
    assert now < pointer || pointer == due[CaughtUp(due)];
    forall k | k in c.results ensures k in b.results || (k.0 == id && k.1 < pointer) {
      RecordedMeans(b.results, id, due[..CaughtUp(due)], tickets, k);
    }
    RecordedStaysBehind(cron, b, c, id, now);
  }

  /** A whole poll over the due schedules: unless it throws, each of them ends at the least
      occurrence after `now`, so a second poll at the same instant finds none of them due. */
  method PollSchedules(store: InMemoryExecutionStore, ids: seq<Id>, crons: Crons, now: int, clock: int) returns (outcome: Outcome)
    requires store.Valid() && AreCrons(crons) && ResultsBehind(store.Board()) && Q.Distinct(ids)
    requires forall k :: 0 <= k < |ids| ==> ids[k] in store.schedules && store.schedules[ids[k]].nextRunAt <= now
    modifies store`jobs, store`order, store`schedules, store`scheduledResults, store`nextUuid
    ensures store.Valid() && ResultsBehind(store.Board()) && store.schedules.Keys == old(store.schedules).Keys
    ensures forall id :: id in store.schedules && id !in ids ==> store.schedules[id] == old(store.schedules)[id]
    ensures outcome.Polled? ==> forall k :: 0 <= k < |ids| ==> crons(ids[k])(now) == Some(store.schedules[ids[k]].nextRunAt)
    ensures PollAdded(store.cfg, old(store.schedules), old(store.jobs), store.jobs, ids, outcome.tickets, clock)
  {
    hide *;
    ghost var before := store.schedules;
    var results: seq<Ticket> := [];
    NothingPolled(crons, before, ids, now);
    NothingAdded(store.cfg, before, store.jobs, ids, clock);
    for i := 0 to |ids|
      invariant store.Valid() && ResultsBehind(store.Board()) && PolledUpTo(crons, before, store.schedules, ids, i, now)
      invariant PollAdded(store.cfg, before, old(store.jobs), store.jobs, ids, results, clock)
    {
      NextIsUntouched(crons, before, store.schedules, ids, i, now);
      ScheduleIsCron(crons, ids[i]);
      ghost var last, jobs := store.schedules, store.jobs;
      var polled := PollSchedule(store, ids[i], crons(ids[i]), now, clock);
      AddedSoFar(store.cfg, before, old(store.jobs), jobs, store.jobs, ids, i, Due(crons(ids[i]), last[ids[i]].nextRunAt, now),
                 results, polled.tickets, clock);
      results := results + polled.tickets;
      PolledOneMore(crons, before, last, store.schedules, ids, i, now);
      if polled.Unsupported? {
        return Unsupported(results);
      }
    }
    AllPolled(crons, before, store.schedules, ids, now);
    outcome := Polled(results);
  }

  /** Where a poll stands after its first `i` schedules. */
  ghost predicate PolledUpTo(crons: Crons, before: map<Id, Schedule>, after: map<Id, Schedule>, ids: seq<Id>, i: nat, now: int)
    requires i <= |ids|
  {
    after.Keys == before.Keys &&
    (forall id :: id in after && id !in ids[..i] ==> after[id] == before[id]) &&
    forall k :: 0 <= k < i ==> ids[k] in after && crons(ids[k])(now) == Some(after[ids[k]].nextRunAt)
  }

  /** The jobs are those of before, as they were, and new ones, each for a ticket of the poll and with
      what the schedule it comes from asks for. */
  ghost predicate PollAdded(cfg: Q.Config, schedules: map<Id, Schedule>, before: map<Id, Q.Job>, after: map<Id, Q.Job>,
      ids: seq<Id>, tickets: seq<Ticket>, clock: int)
  {
    (forall id :: id in before ==> id in after && after[id] == before[id]) &&
    forall id :: id in after && id !in before ==> FromASchedule(cfg, schedules, after[id], ids, tickets, clock)
  }

  ghost predicate FromASchedule(cfg: Q.Config, schedules: map<Id, Schedule>, job: Q.Job, ids: seq<Id>, tickets: seq<Ticket>, clock: int) {
    exists i, k :: 0 <= i < |ids| && 0 <= k < |tickets| && ids[i] in schedules && !tickets[k].duplicate &&
                   IsScheduledJob(cfg, job, schedules[ids[i]].request, job.availableAt, tickets[k], clock)
  }

  lemma NothingAdded(cfg: Q.Config, schedules: map<Id, Schedule>, jobs: map<Id, Q.Job>, ids: seq<Id>, clock: int)
    ensures PollAdded(cfg, schedules, jobs, jobs, ids, [], clock)
  {
  }

  lemma AddedSoFar(cfg: Q.Config, schedules: map<Id, Schedule>, before: map<Id, Q.Job>, jobs: map<Id, Q.Job>, after: map<Id, Q.Job>,
      ids: seq<Id>, i: nat, points: seq<int>, tickets: seq<Ticket>, more: seq<Ticket>, clock: int)
    requires PollAdded(cfg, schedules, before, jobs, ids, tickets, clock) && i < |ids| && ids[i] in schedules
    requires JobsAdded(cfg, jobs, after, schedules[ids[i]].request, points, more, clock)
    ensures PollAdded(cfg, schedules, before, after, ids, tickets + more, clock)
  {
    hide FromASchedule;
    hide IsScheduledJob;
    var all := tickets + more;
    forall id | id in after && id !in before
      ensures FromASchedule(cfg, schedules, after[id], ids, all, clock)
    {
      if id in jobs {
        FromMoreTickets(cfg, schedules, jobs[id], ids, tickets, more, clock);
      } else {
        var k :| 0 <= k < |more| && more[k].jobId == id;
        FromThisTicket(cfg, schedules, after[id], ids, i, all, |tickets| + k, points[k], clock);
      }
    }
  }

  lemma FromMoreTickets(cfg: Q.Config, schedules: map<Id, Schedule>, job: Q.Job, ids: seq<Id>, tickets: seq<Ticket>, more: seq<Ticket>, clock: int)
    requires FromASchedule(cfg, schedules, job, ids, tickets, clock)
    ensures FromASchedule(cfg, schedules, job, ids, tickets + more, clock)
  {
    hide IsScheduledJob;
    var i, k :| 0 <= i < |ids| && 0 <= k < |tickets| && ids[i] in schedules && !tickets[k].duplicate &&
                IsScheduledJob(cfg, job, schedules[ids[i]].request, job.availableAt, tickets[k], clock);
    assert (tickets + more)[k] == tickets[k];
  }

  lemma FromThisTicket(cfg: Q.Config, schedules: map<Id, Schedule>, job: Q.Job, ids: seq<Id>, i: nat, tickets: seq<Ticket>, k: nat, dueAt: int, clock: int)
    requires i < |ids| && ids[i] in schedules && k < |tickets| && !tickets[k].duplicate
    requires IsScheduledJob(cfg, job, schedules[ids[i]].request, dueAt, tickets[k], clock)
    ensures FromASchedule(cfg, schedules, job, ids, tickets, clock)
  {
  }

  lemma NothingPolled(crons: Crons, before: map<Id, Schedule>, ids: seq<Id>, now: int)
    ensures PolledUpTo(crons, before, before, ids, 0, now)
  {
  }

  lemma ScheduleIsCron(crons: Crons, id: Id)
    requires AreCrons(crons)
    ensures IsCron(crons(id))
  {
  }

  lemma NextIsUntouched(crons: Crons, before: map<Id, Schedule>, after: map<Id, Schedule>, ids: seq<Id>, i: nat, now: int)
    requires i < |ids| && Q.Distinct(ids) && ids[i] in before && PolledUpTo(crons, before, after, ids, i, now)
    ensures ids[i] in after && after[ids[i]] == before[ids[i]]
  {
  }

  lemma PolledOneMore(crons: Crons, before: map<Id, Schedule>, last: map<Id, Schedule>, after: map<Id, Schedule>,
      ids: seq<Id>, i: nat, now: int)
    requires i < |ids| && Q.Distinct(ids) && PolledUpTo(crons, before, last, ids, i, now)
    requires ids[i] in last && ids[i] in after && after == Pointing(last, ids[i], after[ids[i]].nextRunAt)
    ensures after.Keys == before.Keys
    ensures forall id :: id in after && id !in ids ==> after[id] == before[id]
    ensures crons(ids[i])(now) == Some(after[ids[i]].nextRunAt) ==> PolledUpTo(crons, before, after, ids, i + 1, now)
  {
    assert forall id :: id in ids[..i + 1] <==> id in ids[..i] || id == ids[i];
  }

  lemma AllPolled(crons: Crons, before: map<Id, Schedule>, after: map<Id, Schedule>, ids: seq<Id>, now: int)
    requires PolledUpTo(crons, before, after, ids, |ids|, now)
    ensures after.Keys == before.Keys
    ensures forall id :: id in after && id !in ids ==> after[id] == before[id]
    ensures forall k :: 0 <= k < |ids| ==> ids[k] in after && crons(ids[k])(now) == Some(after[ids[k]].nextRunAt)
  {
    assert ids[..|ids|] == ids;
  }

  // ---- Polling again after the limit ----

  /** The points a catch-up of a schedule pointing at `from` enqueues, and where it leaves the
      pointer. */
  function CatchUpPoints(cron: Cron, from: int, now: int): seq<int>
    requires IsCron(cron)
  {
    var due := Due(cron, from, now);
    due[..CaughtUp(due)]
  }

  function CatchUpPointer(cron: Cron, from: int, now: int): int
    requires IsCron(cron)
  {
    var due := Due(cron, from, now);
    if |due| == 0 then from
    else if CaughtUp(due) == |due| - 1 && cron(now).Some? then cron(now).value
    else due[CaughtUp(due)]
  }

  /** No catch-up makes a run of every missed occurrence: the latest due point is never enqueued,
      and when the loop ends without throwing the pointer has passed it. */
  lemma LatestDueIsDropped(cron: Cron, from: int, now: int)
    requires IsCron(cron) && from <= now
    ensures var due := Due(cron, from, now);
            |due| > 0 && due[|due| - 1] !in CatchUpPoints(cron, from, now) &&
            (CaughtUp(due) == |due| - 1 && cron(now).Some? ==> due[|due| - 1] < CatchUpPointer(cron, from, now))
  {
    var due := Due(cron, from, now);
    forall i | 0 <= i < CaughtUp(due)
      ensures due[i] < due[|due| - 1]
    {
      DueIncreases(cron, from, now, i, |due| - 1);
    }
    DueChain(cron, from, now, |due| - 1);
  }

  /** Everything enqueued by `polls` catch-ups in a row at the same instant. */
  function Drained(cron: Cron, from: int, now: int, polls: nat): seq<int>
    requires IsCron(cron)
    decreases polls
  {
    if polls == 0 then []
    else CatchUpPoints(cron, from, now) + Drained(cron, CatchUpPointer(cron, from, now), now, polls - 1)
  }

  /** A poll that throws past the limit loses nothing: polling again resumes on the next point, and
      however many polls it takes, together they enqueue exactly every due point but the latest,
      once each and in order. */
  lemma {:induction false} RepeatedCatchUpDrains(cron: Cron, from: int, now: int, polls: nat)
    requires IsCron(cron) && from <= now && |Due(cron, from, now)| <= polls * CATCH_UP_LIMIT
    ensures var due := Due(cron, from, now);
            |due| > 0 && Drained(cron, from, now, polls) == due[..|due| - 1]
    decreases polls
  {
    hide Due;
    var due := Due(cron, from, now);
    var k := CaughtUp(due);
    if k == |due| - 1 {
      NextDue(cron, from, now, k);
      NothingMore(cron, CatchUpPointer(cron, from, now), now, polls - 1);
    } else {
      var pointer := CatchUpPointer(cron, from, now);
      DueChain(cron, from, now, k);
      DueFrom(cron, from, now, k);
      RepeatedCatchUpDrains(cron, pointer, now, polls - 1);
      TakenInTwo(due, k);
    }
  }

  lemma TakenInTwo(due: seq<int>, k: nat)
    requires k < |due|
    ensures due[..k] + due[k..][..|due| - k - 1] == due[..|due| - 1]
  {
  }

  /** A catch-up that threw resumes at any later instant on the next point: what the first poll
      enqueued and what is due of the pointer it left are what was due all along. */
  lemma ResumesLater(cron: Cron, from: int, now: int, later: int)
    requires IsCron(cron) && from <= now <= later
    requires CaughtUp(Due(cron, from, now)) < |Due(cron, from, now)| - 1
    ensures CatchUpPoints(cron, from, now) + Due(cron, CatchUpPointer(cron, from, now), later) == Due(cron, from, later)
  {
    var k := CaughtUp(Due(cron, from, now));
    DueGrows(cron, from, now, later);
    DueFrom(cron, from, later, k);
  }

  /** Once a catch-up is done, polling again at the same instant enqueues nothing. */
  lemma {:induction false} NothingMore(cron: Cron, pointer: int, now: int, polls: nat)
    requires IsCron(cron) && (now < pointer || (pointer <= now && cron(pointer).None?))
    ensures Drained(cron, pointer, now, polls) == []
    decreases polls
  {
    if polls > 0 {
      if pointer <= now {
        assert Due(cron, pointer, now) == [pointer];
      }
      NothingMore(cron, CatchUpPointer(cron, pointer, now), now, polls - 1);
    }
  }
}
