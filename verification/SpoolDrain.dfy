/** What one flush removes, when it gives up, and how the retry budget drains a spool whose API is
    unreachable. */
module SpoolDrain {
  import opened Wrappers
  import opened Spool
  import opened SpoolDelivery
  import opened SpoolVerdicts
  import opened SpoolSafety

  // ---- Cleared without being answered for ----

  lemma {:induction false} AllLive(entries: seq<Entry>)
    requires forall e :: e in entries ==> !e.dead
    ensures Deliverable(entries) == entries
  {
    if entries != [] {
      AllLive(entries[..|entries| - 1]);
    }
  }

  lemma ClearedTurn(cfg: Config, s: State, batch: seq<Entry>, turn: Turn)
    requires batch != [] && turn.arrivals == [] && Clears(Deliver(batch, turn.reply))
    ensures Turned(cfg, s, batch, turn) == s.(attempts := 0, log := s.log + [Sent(batch, turn.reply)])
  {
  }

  /** What a flush of two batches that both clear leaves. */
  lemma TwoClearedBatches(cfg: Config, s: State, turns: nat -> Turn, n: nat)
    requires forall e :: e in s.entries ==> !e.dead
    requires 0 < n < |s.entries| <= MAX_EVENT_BATCH && turns(0).arrivals == [] && turns(1).arrivals == []
    requires NextBatch(s.entries, 0) == s.entries[..n] && NextBatch(s.entries, n) == s.entries[n..]
    requires Clears(Deliver(s.entries[..n], turns(0).reply)) && Clears(Deliver(s.entries[n..], turns(1).reply))
    ensures Flush(cfg, s, turns, false) ==
            State([], 0, s.accepted, s.log + [Sent(s.entries[..n], turns(0).reply), Sent(s.entries[n..], turns(1).reply), Acked(Ids(s.entries))])
  {
    hide *;
    PeekAll(s.entries);
    ClearedTurn(cfg, s, s.entries[..n], turns(0));
    var first := Turned(cfg, s, s.entries[..n], turns(0));
    ClearedTurn(cfg, first, s.entries[n..], turns(1));
    var second := Turned(cfg, first, s.entries[n..], turns(1));
    DeliveriesStep(cfg, s, s.entries, 0, turns, 0);
    DeliveriesStep(cfg, first, s.entries, n, turns, 1);
    DeliveriesEnd(cfg, second, s.entries, turns, 2);
    FlushIs(cfg, s, turns, false);
    AllAcknowledged(second);
  }

  lemma PeekAll(entries: seq<Entry>)
    requires (forall e :: e in entries ==> !e.dead) && |entries| <= MAX_EVENT_BATCH
    ensures Peek(entries, MAX_EVENT_BATCH) == entries
  {
    AllLive(entries);
  }

  lemma AllAcknowledged(s: State)
    ensures Acknowledge(s, Ids(s.entries), false) == s.(entries := [], log := s.log + [Acked(Ids(s.entries))])
  {
    WithoutAll(s.entries, Ids(s.entries));
  }

  /** So an entry the server asked to have sent again is acknowledged when it stands behind one
      that was rejected for good. */
  lemma AckedBehindARejectedOne(cfg: Config)
    ensures var event := Draft(0, Event);
            var s := State([Entry(0, event, false), Entry(1, event, false)], 0, [event, event], []);
            var results := [EventResult(0, Refused(TerminalEvent)), EventResult(1, Refused(SequenceGap))];
            !RejectedForGood(results, 1) && !IsSettled(results, 1) &&
            Flush(cfg, s, k => Turn(Answered(results), []), false).entries == []
  {
    var event := Draft(0, Event);
    var entries := [Entry(0, event, false), Entry(1, event, false)];
    var s := State(entries, 0, [event, event], []);
    var results := [EventResult(0, Refused(TerminalEvent)), EventResult(1, Refused(SequenceGap))];
    var turns: nat -> Turn := k => Turn(Answered(results), []);
    assert results[1..][0] == results[1];
    AllLive(entries);
    assert RunLength(entries, 1, entries[0], 1) == 1;
    assert NextBatch(entries, 0) == entries;
    assert !IsSettled(results, 0) && StatusOf(results, 0) == Some(Refused(TerminalEvent));
    var next := Turned(cfg, s, entries, turns(0));
    assert Deliveries(cfg, next, entries, 2, turns, 1) == (next, true);
    assert Deliveries(cfg, s, entries, 0, turns, 0) == (next, true);
    assert Ids(entries)[0] == 0 && Ids(entries)[1] == 1;
    WithoutAll(entries, Ids(entries));
  }

  /** And the completion goes out over it in the very same flush: the server asked for event 1
      again, it was not dead-lettered, and the completion is sent and all three acknowledged. */
  lemma CompletionPassesARetryableEvent(cfg: Config)
    ensures var event, done := Draft(0, Event), Draft(0, Completion);
            var entries := [Entry(0, event, false), Entry(1, event, false), Entry(2, done, false)];
            var results := [EventResult(0, Refused(TerminalEvent)), EventResult(1, Refused(SequenceGap))];
            var next := Flush(cfg, State(entries, 0, [event, event, done], []), k => Turn(Answered(results), []), false);
            !RejectedForGood(results, 1) && !IsSettled(results, 1) && next.entries == [] &&
            next.log == [Sent(entries[..2], Answered(results)), Sent(entries[2..], Answered(results)), Acked([0, 1, 2])]
  {
    var event, done := Draft(0, Event), Draft(0, Completion);
    var entries := [Entry(0, event, false), Entry(1, event, false), Entry(2, done, false)];
    var s := State(entries, 0, [event, event, done], []);
    var results := [EventResult(0, Refused(TerminalEvent)), EventResult(1, Refused(SequenceGap))];
    var turns: nat -> Turn := k => Turn(Answered(results), []);
    assert results[1..][0] == results[1];
    assert RunLength(entries, 1, entries[0], 1) == 1;
    assert NextBatch(entries, 0) == entries[..2] && NextBatch(entries, 2) == entries[2..];
    assert !IsSettled(results, 0) && StatusOf(results, 0) == Some(Refused(TerminalEvent));
    TwoClearedBatches(cfg, s, turns, 2);
    assert Ids(entries) == [0, 1, 2];
  }

  // ---- What one flush removes, and when it gives up ----

  lemma {:induction false} DeliveriesRemoveNothing(cfg: Config, s: State, pending: seq<Entry>, index: nat,
      turns: nat -> Turn, k: nat, id: Id)
    requires index <= |pending| && Held(s.entries, id)
    ensures Held(Deliveries(cfg, s, pending, index, turns, k).0.entries, id)
    decreases |pending| - index
  {
    hide *;
    if index == |pending| {
      DeliveriesEnd(cfg, s, pending, turns, k);
    } else {
      var batch := NextBatch(pending, index);
      TurnRemovesNothing(cfg, s, batch, turns(k), id);
      DeliveriesStep(cfg, s, pending, index, turns, k);
      if Clears(Deliver(batch, turns(k).reply)) {
        DeliveriesRemoveNothing(cfg, Turned(cfg, s, batch, turns(k)), pending, index + |batch|, turns, k + 1, id);
      }
    }
  }

  lemma TurnRemovesNothing(cfg: Config, s: State, batch: seq<Entry>, turn: Turn, id: Id)
    requires batch != [] && Held(s.entries, id)
    ensures Held(Turned(cfg, s, batch, turn).entries, id)
  {
    ArrivalsOnlyAppend(cfg, s, turn.arrivals);
    var queued := EnqueueAll(cfg, s, turn.arrivals).entries;
    var k :| 0 <= k < |s.entries| && s.entries[k].id == id;
    assert queued[k] == s.entries[k];
    var ids := Charged(batch, Deliver(batch, turn.reply));
    assert DeadLettered(queued, ids)[k].id == id;
    assert DeadLettered(queued, ids)[k] in DeadLettered(queued, ids);
  }

  lemma {:induction false} ArrivalsOnlyAppend(cfg: Config, s: State, drafts: seq<Draft>)
    ensures s.entries <= EnqueueAll(cfg, s, drafts).entries
    ensures EnqueueAll(cfg, s, drafts).attempts == s.attempts && EnqueueAll(cfg, s, drafts).log == s.log
  {
    if drafts != [] {
      ArrivalsOnlyAppend(cfg, s, drafts[..|drafts| - 1]);
    }
  }

  /** A flush removes an entry exactly when it took it, every batch of the flush cleared, and the
      spool acknowledged: one late failure keeps everything the flush delivered. */
  lemma FlushRemovesExactly(cfg: Config, s: State, turns: nat -> Turn, ackFails: bool, id: Id)
    requires Inv(s) && Held(s.entries, id)
    ensures var pending := Peek(s.entries, MAX_EVENT_BATCH);
            Held(Flush(cfg, s, turns, ackFails).entries, id) <==>
            !(Deliveries(cfg, s, pending, 0, turns, 0).1 && !ackFails && id in Ids(pending))
  {
    var pending := Peek(s.entries, MAX_EVENT_BATCH);
    DeliveriesRemoveNothing(cfg, s, pending, 0, turns, 0, id);
    DeliveriesKeep(cfg, s, pending, 0, turns, 0);
    WithoutHolds(Deliveries(cfg, s, pending, 0, turns, 0).0.entries, Ids(pending), id);
  }

  lemma TurnSpends(cfg: Config, s: State, batch: seq<Entry>, turn: Turn)
    requires batch != []
    ensures var next := Turned(cfg, s, batch, turn);
            if Clears(Deliver(batch, turn.reply)) then next.attempts == 0 && !GaveUp(next)
            else GaveUp(next) <==> s.attempts + 1 >= cfg.maxAttempts
  {
    ArrivalsOnlyAppend(cfg, s, turn.arrivals);
  }

  /** A flush dead-letters exactly when a delivery does not clear and spends the last attempt: for
      the head batch the attempts counted so far matter, for a later one the head's success reset them. */
  lemma DeadLettersExactlyWhen(cfg: Config, s: State, turns: nat -> Turn, ackFails: bool)
    requires Peek(s.entries, MAX_EVENT_BATCH) != []
    ensures var pending := Peek(s.entries, MAX_EVENT_BATCH);
            var headClears := Clears(Deliver(NextBatch(pending, 0), turns(0).reply));
            var next := Flush(cfg, s, turns, ackFails);
            GaveUp(next) <==>
            (!headClears && s.attempts + 1 >= cfg.maxAttempts) ||
            (headClears && !Deliveries(cfg, s, pending, 0, turns, 0).1 && 1 >= cfg.maxAttempts)
  {
    var pending := Peek(s.entries, MAX_EVENT_BATCH);
    var batch := NextBatch(pending, 0);
    var next := Turned(cfg, s, batch, turns(0));
    TurnSpends(cfg, s, batch, turns(0));
    if Clears(Deliver(batch, turns(0).reply)) {
      assert Deliveries(cfg, s, pending, 0, turns, 0) == Deliveries(cfg, next, pending, |batch|, turns, 1);
      LaterFailures(cfg, next, pending, |batch|, turns, 1);
    } else {
      assert Deliveries(cfg, s, pending, 0, turns, 0) == (next, false);
    }
  }

  predicate GaveUp(s: State) {
    s.log != [] && s.log[|s.log| - 1].Died?
  }

  /** Past a batch that cleared, a failure always finds the attempts reset. */
  lemma {:induction false} LaterFailures(cfg: Config, s: State, pending: seq<Entry>, index: nat, turns: nat -> Turn, k: nat)
    requires index <= |pending| && s.attempts == 0 && !GaveUp(s)
    ensures var r := Deliveries(cfg, s, pending, index, turns, k);
            GaveUp(r.0) <==> !r.1 && 1 >= cfg.maxAttempts
    decreases |pending| - index
  {
    hide *;
    if index == |pending| {
      DeliveriesEnd(cfg, s, pending, turns, k);
    } else {
      var batch := NextBatch(pending, index);
      var next := Turned(cfg, s, batch, turns(k));
      TurnSpends(cfg, s, batch, turns(k));
      DeliveriesStep(cfg, s, pending, index, turns, k);
      if Clears(Deliver(batch, turns(k).reply)) {
        LaterFailures(cfg, next, pending, index + |batch|, turns, k + 1);
      }
    }
  }

  // ---- A spool that never drains ----

  /** Nothing arrives, the head batch clears, and some later batch does not. */
  ghost predicate HeadClearsLaterFails(cfg: Config, s: State, turns: nat -> Turn) {
    var pending := Peek(s.entries, MAX_EVENT_BATCH);
    (forall k: nat :: turns(k).arrivals == []) && pending != [] &&
    Clears(Deliver(NextBatch(pending, 0), turns(0).reply)) && !Deliveries(cfg, s, pending, 0, turns, 0).1
  }

  lemma TurnKeepsEntries(cfg: Config, s: State, batch: seq<Entry>, turn: Turn)
    requires batch != [] && turn.arrivals == []
    requires Clears(Deliver(batch, turn.reply)) || s.attempts + 1 < cfg.maxAttempts
    ensures Turned(cfg, s, batch, turn).entries == s.entries
    ensures Turned(cfg, s, batch, turn).attempts == if Clears(Deliver(batch, turn.reply)) then 0 else s.attempts + 1
  {
  }

  lemma {:induction false} LaterFailureKeeps(cfg: Config, s: State, pending: seq<Entry>, index: nat, turns: nat -> Turn, k: nat)
    requires index <= |pending| && s.attempts == 0 && cfg.maxAttempts >= 2 && forall n: nat :: turns(n).arrivals == []
    ensures var r := Deliveries(cfg, s, pending, index, turns, k); r.0.entries == s.entries && (!r.1 ==> r.0.attempts == 1)
    decreases |pending| - index
  {
    hide *;
    if index == |pending| {
      DeliveriesEnd(cfg, s, pending, turns, k);
    } else {
      var batch := NextBatch(pending, index);
      TurnKeepsEntries(cfg, s, batch, turns(k));
      DeliveriesStep(cfg, s, pending, index, turns, k);
      if Clears(Deliver(batch, turns(k).reply)) {
        LaterFailureKeeps(cfg, Turned(cfg, s, batch, turns(k)), pending, index + |batch|, turns, k + 1);
      }
    }
  }

  /** Such a flush leaves the queue as it was and one attempt counted, however many were before. */
  lemma StuckFlush(cfg: Config, s: State, turns: nat -> Turn, ackFails: bool)
    requires cfg.maxAttempts >= 2 && HeadClearsLaterFails(cfg, s, turns)
    ensures Flush(cfg, s, turns, ackFails).entries == s.entries && Flush(cfg, s, turns, ackFails).attempts == 1
  {
    var pending := Peek(s.entries, MAX_EVENT_BATCH);
    var batch := NextBatch(pending, 0);
    TurnKeepsEntries(cfg, s, batch, turns(0));
    DeliveriesStep(cfg, s, pending, 0, turns, 0);
    LaterFailureKeeps(cfg, Turned(cfg, s, batch, turns(0)), pending, |batch|, turns, 1);
  }

  ghost predicate StuckAt(cfg: Config, s: State, ops: seq<Op>, i: nat)
    requires i < |ops|
  {
    ops[i].DoFlush? && HeadClearsLaterFails(cfg, Run(cfg, s, ops[..i]), ops[i].turns)
  }

  /** Each of the flushes meets a head that clears and a later batch that does not. */
  ghost predicate Stuck(cfg: Config, s: State, ops: seq<Op>) {
    forall i :: 0 <= i < |ops| ==> StuckAt(cfg, s, ops, i)
  }

  /** With two attempts or more, any number of such flushes neither acknowledges nor dead-letters
      anything: the retry budget never runs out behind a head that clears. */
  lemma {:induction false} NeverDrains(cfg: Config, s: State, ops: seq<Op>)
    requires cfg.maxAttempts >= 2 && Stuck(cfg, s, ops)
    ensures Run(cfg, s, ops).entries == s.entries && (ops != [] ==> Run(cfg, s, ops).attempts == 1)
  {
    if ops != [] {
      var front, last := ops[..|ops| - 1], ops[|ops| - 1];
      StuckFront(cfg, s, ops);
      NeverDrains(cfg, s, front);
      assert StuckAt(cfg, s, ops, |front|);
      StuckFlush(cfg, Run(cfg, s, front), last.turns, last.ackFails);
    }
  }

  lemma StuckFront(cfg: Config, s: State, ops: seq<Op>)
    requires ops != [] && Stuck(cfg, s, ops)
    ensures Stuck(cfg, s, ops[..|ops| - 1])
  {
    var front := ops[..|ops| - 1];
    forall i | 0 <= i < |front|
      ensures StuckAt(cfg, s, front, i)
    {
      assert StuckAt(cfg, s, ops, i) && front[..i] == ops[..i];
    }
  }

  function Repeated(op: Op, n: nat): seq<Op> {
    if n == 0 then [] else Repeated(op, n - 1) + [op]
  }

  /** A spool with a delivered event of one job at the head and, behind it, one of another job that
      the server never answers: for any number of flushes both stay, and nothing is given up. */
  lemma {:induction false} OneSilentJobHoldsTheSpool(cfg: Config, n: nat)
    requires cfg.maxAttempts >= 2
    ensures var entries := [Entry(0, Draft(0, Event), false), Entry(1, Draft(1, Event), false)];
            var s := State(entries, 0, [Draft(0, Event), Draft(1, Event)], []);
            var turns: nat -> Turn := k => if k == 0 then Turn(Answered([EventResult(0, Accepted)]), []) else Turn(Threw(false), []);
            Run(cfg, s, Repeated(DoFlush(turns, false), n)).entries == entries
  {
    var entries := [Entry(0, Draft(0, Event), false), Entry(1, Draft(1, Event), false)];
    var s := State(entries, 0, [Draft(0, Event), Draft(1, Event)], []);
    var turns: nat -> Turn := k => if k == 0 then Turn(Answered([EventResult(0, Accepted)]), []) else Turn(Threw(false), []);
    if n > 0 {
      OneSilentJobHoldsTheSpool(cfg, n - 1);
      var before := Run(cfg, s, Repeated(DoFlush(turns, false), n - 1));
      SilentJobFails(cfg, before, turns);
      StuckFlush(cfg, before, turns, false);
      var ops := Repeated(DoFlush(turns, false), n);
      assert ops[..|ops| - 1] == Repeated(DoFlush(turns, false), n - 1);
    }
  }

  lemma SilentJobFails(cfg: Config, s: State, turns: nat -> Turn)
    requires s.entries == [Entry(0, Draft(0, Event), false), Entry(1, Draft(1, Event), false)]
    requires turns(0) == Turn(Answered([EventResult(0, Accepted)]), []) && forall k: nat :: k > 0 ==> turns(k) == Turn(Threw(false), [])
    ensures HeadClearsLaterFails(cfg, s, turns)
  {
    var entries := s.entries;
    PeekAll(entries);
    assert NextBatch(entries, 0) == entries[..1] && NextBatch(entries, 1) == entries[1..];
    var results := [EventResult(0, Accepted)];
    assert results[0] in results && IsSettled(results, 0);
    assert FirstUnsettled(entries[..1], results) == None;
    SecondFails(cfg, s, turns);
  }

  lemma SecondFails(cfg: Config, s: State, turns: nat -> Turn)
    requires |s.entries| == 2 && NextBatch(s.entries, 0) == s.entries[..1] && NextBatch(s.entries, 1) == s.entries[1..]
    requires Clears(Deliver(s.entries[..1], turns(0).reply)) && !Clears(Deliver(s.entries[1..], turns(1).reply))
    ensures !Deliveries(cfg, s, s.entries, 0, turns, 0).1
  {
    hide *;
    DeliveriesStep(cfg, s, s.entries, 0, turns, 0);
    DeliveriesStep(cfg, Turned(cfg, s, s.entries[..1], turns(0)), s.entries, 1, turns, 1);
  }

  // ---- An unreachable API ----

  /** Every delivery of every flush throws, and no job hands anything over meanwhile. */
  ghost predicate Unreachable(ops: seq<Op>) {
    forall i :: 0 <= i < |ops| ==> ops[i].DoFlush? && forall k: nat :: ops[i].turns(k) == Turn(Threw(false), [])
  }

  function HeadBatch(entries: seq<Entry>): seq<Entry>
    requires Deliverable(entries) != []
  {
    NextBatch(Peek(entries, MAX_EVENT_BATCH), 0)
  }

  /** What a flush does then: one attempt is spent on the head batch. */
  function TurnedAway(cfg: Config, s: State): State {
    if Deliverable(s.entries) == [] then s
    else RetryOrDeadLetter(cfg, s.(log := s.log + [Sent(HeadBatch(s.entries), Threw(false))]), Ids(HeadBatch(s.entries)))
  }

  lemma UnreachableFlush(cfg: Config, s: State, turns: nat -> Turn, ackFails: bool)
    requires turns(0) == Turn(Threw(false), [])
    ensures Flush(cfg, s, turns, ackFails) == TurnedAway(cfg, s)
  {
  }

  /** The attempts the spool can still absorb. */
  function Budget(cfg: Config, s: State): int {
    var most := Max(1, cfg.maxAttempts);
    if Deliverable(s.entries) == [] then 0 else |Deliverable(s.entries)| * most - Min(s.attempts, most - 1)
  }

  lemma FewerAreWorthLess(fewer: int, more: int, most: int)
    requires fewer < more && most >= 1
    ensures fewer * most <= more * most - most
  {
    assert (more - 1 - fewer) * most >= 0;
  }

  lemma TurnedAwaySpends(cfg: Config, s: State)
    requires Sorted(s.entries) && Deliverable(s.entries) != []
    ensures Sorted(TurnedAway(cfg, s).entries) && 0 <= Budget(cfg, TurnedAway(cfg, s)) < Budget(cfg, s)
    ensures Ids(TurnedAway(cfg, s).entries) == Ids(s.entries)
  {
    var n, most, next := |Deliverable(s.entries)|, Max(1, cfg.maxAttempts), TurnedAway(cfg, s);
    FewerAreWorthLess(0, n, most);
    if s.attempts + 1 < cfg.maxAttempts {
      assert Deliverable(next.entries) == Deliverable(s.entries) && next.attempts == s.attempts + 1;
    } else {
      HeadDies(s.entries);
      var left := n - |HeadBatch(s.entries)|;
      assert |Deliverable(next.entries)| == left && next.attempts == 0;
      FewerAreWorthLess(left, n, most);
      if left > 0 { FewerAreWorthLess(0, left, most); }
    }
  }

  lemma HeadDies(entries: seq<Entry>)
    requires Sorted(entries) && Deliverable(entries) != []
    ensures Deliverable(DeadLettered(entries, Ids(HeadBatch(entries)))) == Deliverable(entries)[|HeadBatch(entries)|..]
  {
    var live, batch := Deliverable(entries), HeadBatch(entries);
    DeliverableIsLive(entries);
    assert batch == live[..|batch|];
    DeadAreTakenOut(entries, Ids(batch));
    WithoutHead(live, |batch|);
  }

  lemma {:induction false} RefusalsSpend(cfg: Config, s: State, ops: seq<Op>)
    requires Sorted(s.entries) && Unreachable(ops)
    ensures var after := Run(cfg, s, ops);
            Sorted(after.entries) && Ids(after.entries) == Ids(s.entries) &&
            0 <= Budget(cfg, after) <= Max(0, Budget(cfg, s) - |ops|)
  {
    if ops == [] {
      assert Deliverable(s.entries) != [] ==> Max(1, cfg.maxAttempts) <= |Deliverable(s.entries)| * Max(1, cfg.maxAttempts);
    } else {
      var front, last := ops[..|ops| - 1], ops[|ops| - 1];
      RefusalsSpend(cfg, s, front);
      var before := Run(cfg, s, front);
      UnreachableFlush(cfg, before, last.turns, last.ackFails);
      assert Run(cfg, s, ops) == TurnedAway(cfg, before);
      if Deliverable(before.entries) != [] {
        TurnedAwaySpends(cfg, before);
      }
    }
  }

  /** With an unreachable API, N deliverable entries are all dead-lettered, none lost, within
      N times the attempts allowed. */
  lemma UnreachableDrains(cfg: Config, s: State, ops: seq<Op>)
    requires Sorted(s.entries) && Unreachable(ops)
    requires |ops| >= |Deliverable(s.entries)| * Max(1, cfg.maxAttempts)
    ensures var after := Run(cfg, s, ops);
            Deliverable(after.entries) == [] && Ids(after.entries) == Ids(s.entries)
  {
    RefusalsSpend(cfg, s, ops);
    var after := Run(cfg, s, ops);
    var n, most := |Deliverable(after.entries)|, Max(1, cfg.maxAttempts);
    assert Budget(cfg, s) <= |ops|;
    if n > 0 {
      FewerAreWorthLess(0, n, most);
    }
  }

  function Tries(note: Note, n: nat): seq<Note> {
    seq(n, _ => note)
  }

  /** The head batch is sent its full budget of times, untouched, and the last of them
      dead-letters it: after `k` flushes from a fresh budget this is the whole state. */
  lemma {:induction false} HeadIsTriedInFull(cfg: Config, s: State, ops: seq<Op>)
    requires Deliverable(s.entries) != [] && s.attempts == 0 && Unreachable(ops)
    requires |ops| <= Max(1, cfg.maxAttempts)
    ensures var ids := Ids(HeadBatch(s.entries));
            var tries := s.log + Tries(Sent(HeadBatch(s.entries), Threw(false)), |ops|);
            Run(cfg, s, ops) ==
              if |ops| < Max(1, cfg.maxAttempts) then s.(attempts := |ops|, log := tries)
              else s.(entries := DeadLettered(s.entries, ids), log := tries + [Died(ids)])
  {
    if ops == [] {
      assert s.log + Tries(Sent(HeadBatch(s.entries), Threw(false)), 0) == s.log;
    } else {
      var front, last := ops[..|ops| - 1], ops[|ops| - 1];
      HeadIsTriedInFull(cfg, s, front);
      UnreachableFlush(cfg, Run(cfg, s, front), last.turns, last.ackFails);
      var note := Sent(HeadBatch(s.entries), Threw(false));
      assert s.log + Tries(note, |ops|) == s.log + Tries(note, |front|) + [note];
    }
  }
}
