/** Schedules as the execution stores keep them: a pointer to the next occurrence per schedule,
    and the run and job each occurrence was turned into. */
module ScheduleBoard {
  import opened Wrappers
  import opened LeaseMachine

  datatype Policy = Skip | RunOnce | CatchUp

  datatype Request = Request(workspaceId: Id, projectId: Option<Id>, priority: Option<int>,
                             requiredCapabilities: set<Id>, labels: set<Id>)

  datatype Schedule = Schedule(enabled: bool, nextRunAt: int, policy: Policy, request: Request,
                               hasBlackoutWindows: bool, timezoneIsValid: bool)

  /** The run and job an occurrence became; a repeated request is answered with `duplicate`. */
  datatype Ticket = Ticket(runId: Id, jobId: Id, duplicate: bool)

  /** An occurrence's idempotency key: the schedule and the instant it was due. */
  type Occurrence = (Id, int)

  datatype Board = Board(schedules: map<Id, Schedule>, results: map<Occurrence, Ticket>)

  function Advance(b: Board, id: Id, expected: int, next: int): (Board, bool) {
    if id !in b.schedules || b.schedules[id].nextRunAt != expected then (b, false)
    else (b.(schedules := b.schedules[id := b.schedules[id].(nextRunAt := next)]), true)
  }

  /** Turn an occurrence into a run and advance the pointer past it, unless that was done
      before or the pointer has moved. */
  function Enqueue(b: Board, id: Id, dueAt: int, next: int, runId: Id, jobId: Id): (Board, Option<Ticket>) {
    if (id, dueAt) in b.results then (b, Some(b.results[(id, dueAt)].(duplicate := true)))
    else
      var advanced := Advance(b, id, dueAt, next);
      if !advanced.1 then (b, None)
      else
        var ticket := Ticket(runId, jobId, false);
        (advanced.0.(results := b.results[(id, dueAt) := ticket]), Some(ticket))
  }
}
