/** The runner's flush loop as a function: which batches go out, how each answer settles, and
    what is acknowledged, retried or dead-lettered. */
module SpoolDelivery {
  import opened Wrappers
  import opened Spool

  const MAX_EVENT_BATCH: nat := 100

  datatype Conflict = StaleLease | TerminalEvent | SequenceGap | EventHashMismatch | RunNotFound

  /** The status the server gave one event; `Unlisted` is any status the runner does not know. */
  datatype Status = Accepted | Duplicate | Refused(conflict: Conflict) | Unlisted

  datatype EventResult = EventResult(eventId: Id, status: Status)

  /** What a delivery got back. `Threw(true)` is the API error that means a stale lease. */
  datatype Reply = Threw(staleLease: bool) | Answered(results: seq<EventResult>)

  /** One delivery's circumstances: its reply, and what jobs enqueued while it was out. */
  datatype Turn = Turn(reply: Reply, arrivals: seq<Draft>)

  datatype Outcome = Settled | Unsettled(conflict: Option<Conflict>, entry: Id) | Failed

  // ---- One delivery ----

  function RunLength(pending: seq<Entry>, index: nat, head: Entry, taken: nat): (n: nat)
    requires index <= |pending|
    ensures n <= |pending| - index
    decreases |pending| - index
  {
    if index == |pending| || taken >= MAX_EVENT_BATCH || pending[index].draft != head.draft then 0
    else 1 + RunLength(pending, index + 1, head, taken + 1)
  }

  function NextBatch(pending: seq<Entry>, index: nat): (batch: seq<Entry>)
    requires index < |pending|
    ensures 0 < |batch| <= |pending| - index && batch == pending[index..index + |batch|]
    ensures pending[index].draft.kind.Completion? ==> |batch| == 1
  {
    var head := pending[index];
    if head.draft.kind != Event then pending[index..index + 1]
    else pending[index..index + 1 + RunLength(pending, index + 1, head, 1)]
  }

  predicate IsSettled(results: seq<EventResult>, id: Id) {
    exists r :: r in results && r.eventId == id && (r.status.Accepted? || r.status.Duplicate?)
  }

  function StatusOf(results: seq<EventResult>, id: Id): Option<Status> {
    if results == [] then None
    else if results[0].eventId == id then Some(results[0].status)
    else StatusOf(results[1..], id)
  }

  function FirstUnsettled(batch: seq<Entry>, results: seq<EventResult>): Option<Id> {
    if batch == [] then None
    else if !IsSettled(results, batch[0].id) then Some(batch[0].id)
    else FirstUnsettled(batch[1..], results)
  }

  function ConflictOf(status: Option<Status>): Option<Conflict> {
    if status.Some? && status.value.Refused? then Some(status.value.conflict) else None
  }

  function Deliver(batch: seq<Entry>, reply: Reply): Outcome
    requires batch != []
  {
    if batch[0].draft.kind.Completion? then
      match reply
      case Answered(_) => Settled
      case Threw(stale) => if stale then Unsettled(Some(StaleLease), batch[0].id) else Failed
    else
      match reply
      case Threw(_) => Failed
      case Answered(results) =>
        var failed := FirstUnsettled(batch, results);
        if failed.None? then Settled else Unsettled(ConflictOf(StatusOf(results, failed.value)), failed.value)
  }

  predicate IsTerminal(conflict: Option<Conflict>) {
    conflict.Some? && !conflict.value.SequenceGap?
  }

  /** The batch leaves the queue: delivered, or rejected for good. */
  predicate Clears(outcome: Outcome) {
    outcome.Settled? || (outcome.Unsettled? && IsTerminal(outcome.conflict))
  }

  /** The entries a delivery that did not clear is charged for. */
  function Charged(batch: seq<Entry>, outcome: Outcome): seq<Id> {
    if outcome.Unsettled? then [outcome.entry] else Ids(batch)
  }

  // ---- The service's state, and what has happened to it ----

  datatype Note = Sent(batch: seq<Entry>, reply: Reply) | Died(ids: seq<Id>) | Acked(ids: seq<Id>) {
    /** The entries the note is about. */
    function Named(): seq<Id> {
      if Sent? then Ids(batch) else ids
    }

    /** A delivery whose batch left the queue. */
    predicate Cleared() {
      Sent? && batch != [] && Clears(Deliver(batch, reply))
    }
  }

  /** `accepted[id]` is the draft that became entry `id`; `log` is what was done since. */
  datatype State = State(entries: seq<Entry>, attempts: nat, accepted: seq<Draft>, log: seq<Note>)

  datatype Config = Config(maxAttempts: int, maxEntries: nat)

  function Enqueue(cfg: Config, s: State, draft: Draft): State {
    if |s.entries| >= cfg.maxEntries then s
    else s.(entries := s.entries + [Entry(|s.accepted|, draft, false)], accepted := s.accepted + [draft])
  }

  function EnqueueAll(cfg: Config, s: State, drafts: seq<Draft>): State {
    if drafts == [] then s else Enqueue(cfg, EnqueueAll(cfg, s, drafts[..|drafts| - 1]), drafts[|drafts| - 1])
  }

  function RetryOrDeadLetter(cfg: Config, s: State, ids: seq<Id>): State {
    if s.attempts + 1 < cfg.maxAttempts then s.(attempts := s.attempts + 1)
    else s.(attempts := 0, entries := DeadLettered(s.entries, ids), log := s.log + [Died(ids)])
  }

  function Settle(cfg: Config, s: State, batch: seq<Entry>, reply: Reply): State
    requires batch != []
  {
    var outcome := Deliver(batch, reply);
    var sent := s.(log := s.log + [Sent(batch, reply)]);
    if Clears(outcome) then sent.(attempts := 0) else RetryOrDeadLetter(cfg, sent, Charged(batch, outcome))
  }

  /** One delivery: what arrived while it was out is queued, then its outcome is settled. */
  function Turned(cfg: Config, s: State, batch: seq<Entry>, turn: Turn): State
    requires batch != []
  {
    Settle(cfg, EnqueueAll(cfg, s, turn.arrivals), batch, turn.reply)
  }

  /** The deliveries from `index` on, stopping at the first that does not clear its batch. */
  function Deliveries(cfg: Config, s: State, pending: seq<Entry>, index: nat, turns: nat -> Turn, k: nat): (r: (State, bool))
    requires index <= |pending|
    decreases |pending| - index
  {
    if index == |pending| then (s, true)
    else
      var batch := NextBatch(pending, index);
      var next := Turned(cfg, s, batch, turns(k));
      if Clears(Deliver(batch, turns(k).reply)) then Deliveries(cfg, next, pending, index + |batch|, turns, k + 1)
      else (next, false)
  }

  lemma DeliveriesStep(cfg: Config, s: State, pending: seq<Entry>, index: nat, turns: nat -> Turn, k: nat)
    requires index < |pending|
    ensures var batch := NextBatch(pending, index);
            var next := Turned(cfg, s, batch, turns(k));
            Deliveries(cfg, s, pending, index, turns, k) ==
              if Clears(Deliver(batch, turns(k).reply)) then Deliveries(cfg, next, pending, index + |batch|, turns, k + 1)
              else (next, false)
  {
  }

  lemma DeliveriesEnd(cfg: Config, s: State, pending: seq<Entry>, turns: nat -> Turn, k: nat)
    ensures Deliveries(cfg, s, pending, |pending|, turns, k) == (s, true)
  {
  }

  /** Acknowledges a flush's entries; a spool that fails to only costs an attempt. */
  function Acknowledge(s: State, ids: seq<Id>, ackFails: bool): State {
    if ackFails then s.(attempts := s.attempts + 1)
    else s.(entries := Without(s.entries, ids), log := s.log + [Acked(ids)])
  }

  /** One flush: nothing is acknowledged unless every batch of it cleared. */
  function Flush(cfg: Config, s: State, turns: nat -> Turn, ackFails: bool): State {
    var pending := Peek(s.entries, MAX_EVENT_BATCH);
    var (sent, all) := Deliveries(cfg, s, pending, 0, turns, 0);
    if !all || pending == [] then sent else Acknowledge(sent, Ids(pending), ackFails)
  }

  /** A job hands an entry over, or the service flushes. */
  datatype Op = Hand(draft: Draft) | DoFlush(turns: nat -> Turn, ackFails: bool)

  function Apply(cfg: Config, s: State, op: Op): State {
    match op
    case Hand(draft) => Enqueue(cfg, s, draft)
    case DoFlush(turns, ackFails) => Flush(cfg, s, turns, ackFails)
  }

  function Run(cfg: Config, s: State, ops: seq<Op>): State {
    if ops == [] then s else Apply(cfg, Run(cfg, s, ops[..|ops| - 1]), ops[|ops| - 1])
  }
}
