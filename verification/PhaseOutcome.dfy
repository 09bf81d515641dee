/** A run's phase, outcome and status, derived together so that a run is terminal exactly when
    it has an outcome. */
module PhaseOutcome {
  import opened Wrappers
  import opened LeaseMachine

  datatype RunPhase =
    | PhQueued | PhAssigned | PhPreparing | PhRunning | PhCollecting | PhNormalizing | PhAnalyzing | PhGateEvaluation
    | PhComplete | PhCancelled | PhTimedOut | PhRunnerLost | PhInfraFailed | PhConfigFailed | PhBlocked | PhPartial

  datatype RunOutcome =
    | OutPassed | OutFailed | OutUnknown | OutPartial | OutCancelled | OutTimedOut | OutRunnerLost
    | OutInfraFailed | OutConfigFailed | OutBlocked

  datatype RunStatus = StPassed | StFailed | StRunning | StInterrupted

  datatype DerivedRunState = DerivedRunState(phase: RunPhase, outcome: Option<RunOutcome>, status: RunStatus, terminal: bool)

  predicate IsTerminalPhase(phase: RunPhase) {
    phase.PhComplete? || phase.PhCancelled? || phase.PhTimedOut? || phase.PhRunnerLost? ||
    phase.PhInfraFailed? || phase.PhConfigFailed? || phase.PhBlocked? || phase.PhPartial?
  }

  /** The outcome a terminal phase implies by itself. */
  function PhaseImplies(phase: RunPhase): Option<RunOutcome> {
    match phase
    case PhCancelled => Some(OutCancelled)
    case PhTimedOut => Some(OutTimedOut)
    case PhRunnerLost => Some(OutRunnerLost)
    case PhInfraFailed => Some(OutInfraFailed)
    case PhConfigFailed => Some(OutConfigFailed)
    case PhBlocked => Some(OutBlocked)
    case PhPartial => Some(OutPartial)
    case _ => None
  }

  /** `claimed` is the payload's outcome when it is in the declared vocabulary, `None` for
      anything else. Whatever is requested and claimed, the phase is kept, is terminal exactly
      when there is an outcome, and only a `complete` run takes its outcome from the claim. */
  function DeriveRunState(requested: RunPhase, claimed: Option<RunOutcome>): (r: DerivedRunState)
    ensures r.phase == requested && (r.terminal <==> IsTerminalPhase(requested)) && (r.terminal <==> r.outcome.Some?)
    ensures r.status == StPassed <==> requested.PhComplete? && claimed == Some(OutPassed)
    ensures !requested.PhComplete? ==> r.outcome == PhaseImplies(requested)
  {
    if !IsTerminalPhase(requested) then DerivedRunState(requested, None, StRunning, false)
    else
      var implied := PhaseImplies(requested);
      if !requested.PhComplete? then DerivedRunState(requested, implied, StInterrupted, true)
      else
        var outcome := claimed.GetOr(implied.GetOr(OutUnknown));
        DerivedRunState(requested, Some(outcome), if outcome == OutPassed then StPassed else StFailed, true)
  }

  datatype JobResult =
    | JobCompleted | JobFailed | JobCancelled | JobTimedOut | JobInfraFailed | JobConfigFailed | JobRunnerLost | JobRequeue

  function PhaseForResult(status: JobResult): RunPhase {
    match status
    case JobCompleted => PhComplete
    case JobFailed => PhComplete
    case JobCancelled => PhCancelled
    case JobTimedOut => PhTimedOut
    case JobInfraFailed => PhInfraFailed
    case JobConfigFailed => PhConfigFailed
    case JobRunnerLost => PhRunnerLost
    case JobRequeue => PhQueued
  }

  function TerminalJobState(status: JobResult): JobState {
    match status
    case JobCompleted => Completed
    case JobCancelled => Cancelled
    case _ => Failed
  }

  function TerminalRunState(status: JobResult): DerivedRunState {
    var claimed := if status.JobCompleted? then Some(OutPassed) else if status.JobFailed? then Some(OutFailed) else None;
    DeriveRunState(PhaseForResult(status), claimed)
  }

  /** What a run's phase, outcome and status are, value by value: a run under way has no outcome and
      is running; a complete one has the outcome claimed for it, or an unknown one, and passed or
      failed by it; any other ended run is interrupted, with the outcome its phase names. */
  lemma DerivedRunIs(requested: RunPhase, claimed: Option<RunOutcome>)
    ensures var r := DeriveRunState(requested, claimed);
            (requested in {PhQueued, PhAssigned, PhPreparing, PhRunning, PhCollecting, PhNormalizing, PhAnalyzing, PhGateEvaluation} ==>
               r == DerivedRunState(requested, None, StRunning, false)) &&
            (requested == PhComplete && claimed == Some(OutPassed) ==> r == DerivedRunState(PhComplete, Some(OutPassed), StPassed, true)) &&
            (requested == PhComplete && claimed.Some? && claimed != Some(OutPassed) ==>
               r == DerivedRunState(PhComplete, claimed, StFailed, true)) &&
            (requested == PhComplete && claimed == None ==> r == DerivedRunState(PhComplete, Some(OutUnknown), StFailed, true)) &&
            (requested == PhCancelled ==> r == DerivedRunState(PhCancelled, Some(OutCancelled), StInterrupted, true)) &&
            (requested == PhTimedOut ==> r == DerivedRunState(PhTimedOut, Some(OutTimedOut), StInterrupted, true)) &&
            (requested == PhRunnerLost ==> r == DerivedRunState(PhRunnerLost, Some(OutRunnerLost), StInterrupted, true)) &&
            (requested == PhInfraFailed ==> r == DerivedRunState(PhInfraFailed, Some(OutInfraFailed), StInterrupted, true)) &&
            (requested == PhConfigFailed ==> r == DerivedRunState(PhConfigFailed, Some(OutConfigFailed), StInterrupted, true)) &&
            (requested == PhBlocked ==> r == DerivedRunState(PhBlocked, Some(OutBlocked), StInterrupted, true)) &&
            (requested == PhPartial ==> r == DerivedRunState(PhPartial, Some(OutPartial), StInterrupted, true))
  {
  }

  /** The state a finished job and its run end in, by the job's result. */
  datatype Ending = Ending(job: JobState, phase: RunPhase, outcome: RunOutcome, status: RunStatus)

  /** A finished job ends its run: the row each result writes, and a requeue, alone, is no ending. */
  lemma FinishedJobEndsRun(status: JobResult)
    ensures TerminalRunState(status).terminal <==> status != JobRequeue
    ensures var run := TerminalRunState(status);
            var ended := Ending(TerminalJobState(status), run.phase, run.outcome.GetOr(OutUnknown), run.status);
            run.outcome.Some? == (status != JobRequeue) &&
            (status == JobCompleted ==> ended == Ending(Completed, PhComplete, OutPassed, StPassed)) &&
            (status == JobFailed ==> ended == Ending(Failed, PhComplete, OutFailed, StFailed)) &&
            (status == JobCancelled ==> ended == Ending(Cancelled, PhCancelled, OutCancelled, StInterrupted)) &&
            (status == JobTimedOut ==> ended == Ending(Failed, PhTimedOut, OutTimedOut, StInterrupted)) &&
            (status == JobInfraFailed ==> ended == Ending(Failed, PhInfraFailed, OutInfraFailed, StInterrupted)) &&
            (status == JobConfigFailed ==> ended == Ending(Failed, PhConfigFailed, OutConfigFailed, StInterrupted)) &&
            (status == JobRunnerLost ==> ended == Ending(Failed, PhRunnerLost, OutRunnerLost, StInterrupted)) &&
            (status == JobRequeue ==> run.phase == PhQueued && run.status == StRunning)
  {
  }
}
