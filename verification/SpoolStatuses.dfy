/** What a flush does to the entries it sends, by the statuses the server answers with. */
module SpoolStatuses {
  import opened Wrappers
  import opened Spool
  import opened SpoolDelivery
  import opened SpoolVerdicts
  import opened SpoolSafety
  import opened SpoolDrain

  // ---- Reading a reply ----

  /** The server took the event, now or before. */
  ghost predicate TookIn(results: seq<EventResult>, id: Id) {
    EventResult(id, Accepted) in results || EventResult(id, Duplicate) in results
  }

  /** The first status listed for the event. */
  ghost predicate FirstStatus(results: seq<EventResult>, id: Id, status: Status) {
    exists n :: 0 <= n < |results| && results[n] == EventResult(id, status) && forall m :: 0 <= m < n ==> results[m].eventId != id
  }

  /** The server will not take the event however often it is sent. */
  ghost predicate RefusedIn(results: seq<EventResult>, id: Id) {
    FirstStatus(results, id, Refused(StaleLease)) || FirstStatus(results, id, Refused(TerminalEvent)) ||
    FirstStatus(results, id, Refused(EventHashMismatch)) || FirstStatus(results, id, Refused(RunNotFound))
  }

  lemma TookInIsSettled(results: seq<EventResult>, id: Id)
    ensures IsSettled(results, id) <==> TookIn(results, id)
  {
    if r :| r in results && r.eventId == id && (r.status.Accepted? || r.status.Duplicate?) {
      assert r == EventResult(id, Accepted) || r == EventResult(id, Duplicate);
    }
    if EventResult(id, Accepted) in results {
      var r := EventResult(id, Accepted);
      assert r in results && r.eventId == id && r.status.Accepted?;
    }
    if EventResult(id, Duplicate) in results {
      var r := EventResult(id, Duplicate);
      assert r in results && r.eventId == id && r.status.Duplicate?;
    }
  }

  lemma FirstStatusStep(results: seq<EventResult>, id: Id, status: Status)
    requires results != []
    ensures FirstStatus(results, id, status) <==>
            if results[0].eventId == id then results[0].status == status else FirstStatus(results[1..], id, status)
  {
    var rest := results[1..];
    if results[0].eventId == id {
      assert results[0].status == status ==> results[0] == EventResult(id, status);
    } else {
      if n :| 0 <= n < |rest| && rest[n] == EventResult(id, status) && forall m :: 0 <= m < n ==> rest[m].eventId != id {
        assert results[n + 1] == rest[n];
        assert forall m :: 0 < m < n + 1 ==> results[m] == rest[m - 1];
      }
      if n :| 0 <= n < |results| && results[n] == EventResult(id, status) && forall m :: 0 <= m < n ==> results[m].eventId != id {
        assert rest[n - 1] == results[n];
        assert forall m :: 0 <= m < n - 1 ==> rest[m] == results[m + 1];
      }
    }
  }

  lemma {:induction false} StatusIsFirst(results: seq<EventResult>, id: Id, status: Status)
    ensures StatusOf(results, id) == Some(status) <==> FirstStatus(results, id, status)
  {
    if results != [] {
      hide FirstStatus;
      StatusIsFirst(results[1..], id, status);
      FirstStatusStep(results, id, status);
    }
  }

  lemma RefusedInIsForGood(results: seq<EventResult>, id: Id)
    ensures RejectedForGood(results, id) <==> RefusedIn(results, id)
  {
    hide FirstStatus;
    hide StatusOf;
    StatusIsFirst(results, id, Refused(StaleLease));
    StatusIsFirst(results, id, Refused(TerminalEvent));
    StatusIsFirst(results, id, Refused(EventHashMismatch));
    StatusIsFirst(results, id, Refused(RunNotFound));
  }

  /** A batch of events leaves the queue exactly when the server took each of them, or took each up to
      one that it refused for good; a completion exactly when it is answered or its lease is stale. */
  lemma ClearsByStatus(batch: seq<Entry>, reply: Reply)
    requires batch != []
    ensures batch[0].draft.kind == Event ==>
              (Clears(Deliver(batch, reply)) <==>
               reply.Answered? &&
               ((forall e :: e in batch ==> TookIn(reply.results, e.id)) ||
                exists k :: 0 <= k < |batch| && FirstNotTaken(batch, reply.results, k) && RefusedIn(reply.results, batch[k].id)))
    ensures batch[0].draft.kind == Completion ==>
              (Clears(Deliver(batch, reply)) <==> reply.Answered? || reply == Threw(true))
  {
    if batch[0].draft.kind.Event? && reply.Answered? {
      ClearsExactlyWhen(batch, reply.results);
      hide IsSettled;
      hide TookIn;
      hide RejectedForGood;
      hide RefusedIn;
      hide Clears;
      forall id ensures IsSettled(reply.results, id) == TookIn(reply.results, id) {
        TookInIsSettled(reply.results, id);
      }
      forall id ensures RejectedForGood(reply.results, id) == RefusedIn(reply.results, id) {
        RefusedInIsForGood(reply.results, id);
      }
    }
  }

  ghost predicate FirstNotTaken(batch: seq<Entry>, results: seq<EventResult>, k: nat)
    requires k < |batch|
  {
    !TookIn(results, batch[k].id) && forall j :: 0 <= j < k ==> TookIn(results, batch[j].id)
  }

  // ---- What becomes of the entries ----

  predicate Gone(entries: seq<Entry>, e: Entry) {
    forall x :: x in entries ==> x.id != e.id
  }

  lemma {:induction false} WithoutAreGone(entries: seq<Entry>, ids: seq<Id>)
    ensures forall x :: x in Without(entries, ids) <==> x in entries && x.id !in ids
  {
    if entries != [] {
      WithoutAreGone(entries[..|entries| - 1], ids);
      assert entries == entries[..|entries| - 1] + [entries[|entries| - 1]];
    }
  }

  lemma {:induction false} DeliverableAreHeld(entries: seq<Entry>)
    ensures forall e :: e in Deliverable(entries) <==> e in entries && !e.dead
  {
    if entries != [] {
      DeliverableAreHeld(entries[..|entries| - 1]);
      assert entries == entries[..|entries| - 1] + [entries[|entries| - 1]];
    }
  }

  /** What a flush takes is the oldest live entries, a hundred or all of them. */
  lemma PeekIs(entries: seq<Entry>)
    ensures var pending, live := Peek(entries, MAX_EVENT_BATCH), Deliverable(entries);
            pending <= live && |pending| == (if |live| < 100 then |live| else 100) &&
            forall e :: e in pending ==> e in entries && !e.dead
  {
    DeliverableAreHeld(entries);
    assert forall e :: e in Peek(entries, MAX_EVENT_BATCH) ==> e in Deliverable(entries);
  }

  lemma {:induction false} OneRunOfDrafts(pending: seq<Entry>, index: nat, taken: nat)
    requires 1 <= index <= |pending| && taken + |pending| - index <= 100
    requires forall e :: e in pending ==> e.draft == pending[0].draft
    ensures RunLength(pending, index, pending[0], taken) == |pending| - index
    decreases |pending| - index
  {
    if index < |pending| {
      assert pending[index] in pending;
      OneRunOfDrafts(pending, index + 1, taken + 1);
    }
  }

  lemma OneBatch(pending: seq<Entry>)
    requires 0 < |pending| <= 100 && forall e :: e in pending ==> e.draft == pending[0].draft
    requires pending[0].draft.kind == Event || |pending| == 1
    ensures NextBatch(pending, 0) == pending
  {
    OneRunOfDrafts(pending, 1, 1);
  }

  /** A flush of a single batch, by whether it clears. */
  lemma OneBatchFlush(cfg: Config, s: State, turns: nat -> Turn)
    requires var pending := Peek(s.entries, MAX_EVENT_BATCH); pending != [] && NextBatch(pending, 0) == pending
    ensures var pending, turn, next := Peek(s.entries, MAX_EVENT_BATCH), turns(0), Flush(cfg, s, turns, false);
            var queued, outcome := EnqueueAll(cfg, s, turn.arrivals).entries, Deliver(pending, turn.reply);
            if Clears(outcome) then next.entries == Without(queued, Ids(pending)) && next.attempts == 0
            else if s.attempts + 1 < cfg.maxAttempts then next.entries == queued && next.attempts == s.attempts + 1
            else next.entries == DeadLettered(queued, Charged(pending, outcome)) && next.attempts == 0
  {
    var pending := Peek(s.entries, MAX_EVENT_BATCH);
    ArrivalsOnlyAppend(cfg, s, turns(0).arrivals);
    hide Peek;
    hide NextBatch;
    hide Deliver;
    hide EnqueueAll;
    hide Clears;
    DeliveriesStep(cfg, s, pending, 0, turns, 0);
    DeliveriesEnd(cfg, Turned(cfg, s, pending, turns(0)), pending, turns, 1);
  }

  /** All of the batch left the queue and the counter is back at zero. */
  ghost predicate AllLeft(s: State, batch: seq<Entry>) {
    s.attempts == 0 && forall e :: e in batch ==> Gone(s.entries, e)
  }

  /** One more attempt is spent: all of the batch stays queued, or, when it was the last attempt, the
      entries charged for it are dead-lettered and the counter is back at zero. */
  ghost predicate AllStay(cfg: Config, was: State, s: State, batch: seq<Entry>, charged: set<Id>) {
    if was.attempts + 1 < cfg.maxAttempts then s.attempts == was.attempts + 1 && forall e :: e in batch ==> e in s.entries
    else s.attempts == 0 && forall e :: e in batch ==> (if e.id in charged then e.(dead := true) else e) in s.entries
  }

  lemma ClearedLeaves(cfg: Config, s: State, turns: nat -> Turn)
    requires var pending := Peek(s.entries, MAX_EVENT_BATCH);
             pending != [] && NextBatch(pending, 0) == pending && Clears(Deliver(pending, turns(0).reply))
    ensures AllLeft(Flush(cfg, s, turns, false), Peek(s.entries, MAX_EVENT_BATCH))
  {
    var pending := Peek(s.entries, MAX_EVENT_BATCH);
    OneBatchFlush(cfg, s, turns);
    WithoutAreGone(EnqueueAll(cfg, s, turns(0).arrivals).entries, Ids(pending));
    hide *;
    forall e | e in pending
      ensures e.id in Ids(pending)
    {
      var k :| 0 <= k < |pending| && pending[k] == e;
      assert Ids(pending)[k] == e.id;
    }
    LeftMeans(Flush(cfg, s, turns, false), pending);
  }

  lemma LeftMeans(s: State, batch: seq<Entry>)
    requires s.attempts == 0 && forall x, e :: x in s.entries && e in batch ==> x.id != e.id
    ensures AllLeft(s, batch)
  {
  }

  lemma UnclearedStays(cfg: Config, s: State, turns: nat -> Turn, charged: seq<Id>)
    requires var pending := Peek(s.entries, MAX_EVENT_BATCH);
             pending != [] && NextBatch(pending, 0) == pending && !Clears(Deliver(pending, turns(0).reply)) &&
             Charged(pending, Deliver(pending, turns(0).reply)) == charged
    ensures AllStay(cfg, s, Flush(cfg, s, turns, false), Peek(s.entries, MAX_EVENT_BATCH), set id | id in charged)
  {
    var pending, queued := Peek(s.entries, MAX_EVENT_BATCH), EnqueueAll(cfg, s, turns(0).arrivals).entries;
    OneBatchFlush(cfg, s, turns);
    PeekIs(s.entries);
    ArrivalsOnlyAppend(cfg, s, turns(0).arrivals);
    assert forall e :: e in pending ==> e in queued;
    forall e | e in queued
      ensures (if e.id in charged then e.(dead := true) else e) in DeadLettered(queued, charged)
    {
      var k :| 0 <= k < |queued| && queued[k] == e;
      assert DeadLettered(queued, charged)[k] in DeadLettered(queued, charged);
    }
  }

  // ---- By status ----

  /** A flush whose pending entries are one job's events, by what the server answers: they all leave
      when it took each of them, or took each up to one it refused for good. Otherwise they all
      stay, and the attempt is charged to the first it did not take; to all of them when the
      delivery throws. */
  lemma EventsByStatus(cfg: Config, s: State, turns: nat -> Turn, k: nat)
    requires var pending := Peek(s.entries, MAX_EVENT_BATCH);
             k < |pending| && pending[0].draft.kind == Event && forall e :: e in pending ==> e.draft == pending[0].draft
    ensures var pending, reply, next := Peek(s.entries, MAX_EVENT_BATCH), turns(0).reply, Flush(cfg, s, turns, false);
            (reply.Answered? && (forall e :: e in pending ==> TookIn(reply.results, e.id)) ==> AllLeft(next, pending)) &&
            (reply.Answered? && FirstNotTaken(pending, reply.results, k) ==>
               if RefusedIn(reply.results, pending[k].id) then AllLeft(next, pending)
               else AllStay(cfg, s, next, pending, {pending[k].id})) &&
            (reply.Threw? ==> AllStay(cfg, s, next, pending, set e | e in pending :: e.id))
  {
    var pending, reply := Peek(s.entries, MAX_EVENT_BATCH), turns(0).reply;
    PeekIs(s.entries);
    OneBatch(pending);
    ClearsByStatus(pending, reply);
    hide *;
    ChargedByStatus(pending, reply, k);
    if Clears(Deliver(pending, reply)) {
      ClearedLeaves(cfg, s, turns);
    } else {
      UnclearedStays(cfg, s, turns, Charged(pending, Deliver(pending, reply)));
    }
    IdSets(pending, k);
  }

  lemma IdSets(batch: seq<Entry>, k: nat)
    requires k < |batch|
    ensures (set id | id in Ids(batch)) == set e | e in batch :: e.id
    ensures (set id | id in [batch[k].id]) == {batch[k].id}
  {
    forall e | e in batch
      ensures e.id in Ids(batch)
    {
      var n :| 0 <= n < |batch| && batch[n] == e;
      assert Ids(batch)[n] == e.id;
    }
    forall id | id in Ids(batch)
      ensures exists e :: e in batch && e.id == id
    {
      var n :| 0 <= n < |batch| && Ids(batch)[n] == id;
      assert batch[n] in batch && batch[n].id == id;
    }
  }

  lemma ChargedByStatus(batch: seq<Entry>, reply: Reply, k: nat)
    requires k < |batch| && batch[0].draft.kind == Event
    ensures var outcome := Deliver(batch, reply);
            (reply.Threw? ==> !Clears(outcome) && Charged(batch, outcome) == Ids(batch)) &&
            (reply.Answered? && FirstNotTaken(batch, reply.results, k) ==> Charged(batch, outcome) == [batch[k].id]) &&
            (reply.Answered? && FirstNotTaken(batch, reply.results, k) ==>
               (Clears(outcome) <==> RefusedIn(reply.results, batch[k].id)))
  {
    if reply.Answered? {
      FirstUnsettledIsFirst(batch, reply.results);
      hide IsSettled;
      hide TookIn;
      hide RejectedForGood;
      hide RefusedIn;
      forall id ensures IsSettled(reply.results, id) == TookIn(reply.results, id) {
        TookInIsSettled(reply.results, id);
      }
      RefusedInIsForGood(reply.results, batch[k].id);
      if FirstNotTaken(batch, reply.results, k) {
        assert batch[k] in batch;
        FirstIsCharged(batch, reply.results, k);
      }
    }
  }

  lemma FirstIsCharged(batch: seq<Entry>, results: seq<EventResult>, k: nat)
    requires k < |batch| && batch[0].draft.kind == Event
    requires !IsSettled(results, batch[k].id) && forall j :: 0 <= j < k ==> IsSettled(results, batch[j].id)
    ensures Deliver(batch, Answered(results)) == Unsettled(ConflictOf(StatusOf(results, batch[k].id)), batch[k].id)
    ensures Clears(Deliver(batch, Answered(results))) <==> RejectedForGood(results, batch[k].id)
  {
    FirstUnsettledIsFirst(batch, results);
    assert batch[k] in batch;
    var first := FirstUnsettled(batch, results);
    var n :| 0 <= n < |batch| && batch[n].id == first.value && !IsSettled(results, batch[n].id) &&
             forall j :: 0 <= j < n ==> IsSettled(results, batch[j].id);
    assert n == k;
  }

  /** A flush of a single event: it leaves when it is accepted or a duplicate, or refused as under a
      stale lease, after a terminal event, with another hash or for an unknown run; it stays on a
      sequence gap, a status the runner does not know, none at all, and when the delivery throws. */
  lemma EventByStatus(cfg: Config, s: State, turns: nat -> Turn, e: Entry)
    requires Peek(s.entries, MAX_EVENT_BATCH) == [e] && e.draft.kind == Event
    ensures var reply, next := turns(0).reply, Flush(cfg, s, turns, false);
            if reply.Answered? && (TookIn(reply.results, e.id) || RefusedIn(reply.results, e.id)) then AllLeft(next, [e])
            else AllStay(cfg, s, next, [e], {e.id})
  {
    var reply := turns(0).reply;
    assert [e][0] == e;
    EventsByStatus(cfg, s, turns, 0);
    assert (set x | x in [e] :: x.id) == {e.id};
  }

  /** With one status listed for it. */
  lemma OneStatus(id: Id, status: Status)
    ensures TookIn([EventResult(id, status)], id) <==> status in {Accepted, Duplicate}
    ensures RefusedIn([EventResult(id, status)], id) <==>
            status in {Refused(StaleLease), Refused(TerminalEvent), Refused(EventHashMismatch), Refused(RunNotFound)}
  {
    forall other ensures FirstStatus([EventResult(id, status)], id, other) <==> other == status {
      if other == status {
        assert [EventResult(id, status)][0] == EventResult(id, other);
      }
    }
  }

  /** A flush of a completion: it leaves when it is answered or its lease is stale, and stays when the
      delivery throws anything else. */
  lemma CompletionByReply(cfg: Config, s: State, turns: nat -> Turn, e: Entry)
    requires Peek(s.entries, MAX_EVENT_BATCH) == [e] && e.draft.kind == Completion
    ensures var reply, next := turns(0).reply, Flush(cfg, s, turns, false);
            if reply.Answered? || reply == Threw(true) then AllLeft(next, [e]) else AllStay(cfg, s, next, [e], {e.id})
  {
    var reply := turns(0).reply;
    OneBatch([e]);
    ClearsByStatus([e], reply);
    if Clears(Deliver([e], reply)) {
      ClearedLeaves(cfg, s, turns);
    } else {
      UnclearedStays(cfg, s, turns, [e.id]);
      assert (set id | id in [e.id]) == {e.id};
    }
  }

  // ---- A flush the server answers in full ----

  /** Every delivery is answered, and every answer takes every event the flush sends. */
  ghost predicate TakesAll(pending: seq<Entry>, turns: nat -> Turn) {
    forall k: nat :: turns(k).reply.Answered? &&
      forall e :: e in pending && e.draft.kind == Event ==> TookIn(turns(k).reply.results, e.id)
  }

  lemma {:induction false} TakenBatchesClear(cfg: Config, s: State, pending: seq<Entry>, index: nat, turns: nat -> Turn, k: nat)
    requires index <= |pending| && TakesAll(pending, turns)
    ensures Deliveries(cfg, s, pending, index, turns, k).1
    ensures index < |pending| ==> Deliveries(cfg, s, pending, index, turns, k).0.attempts == 0
    decreases |pending| - index
  {
    hide *;
    if index == |pending| {
      DeliveriesEnd(cfg, s, pending, turns, k);
    } else {
      var batch := NextBatch(pending, index);
      var next := Turned(cfg, s, batch, turns(k));
      DeliveriesStep(cfg, s, pending, index, turns, k);
      TakenBatchClears(pending, index, turns, k);
      TakenBatchesClear(cfg, next, pending, index + |batch|, turns, k + 1);
      if index + |batch| == |pending| {
        DeliveriesEnd(cfg, next, pending, turns, k + 1);
        TurnSpends(cfg, s, batch, turns(k));
      }
    }
  }

  lemma TakenBatchClears(pending: seq<Entry>, index: nat, turns: nat -> Turn, k: nat)
    requires index < |pending| && TakesAll(pending, turns)
    ensures Clears(Deliver(NextBatch(pending, index), turns(k).reply))
  {
    var batch := NextBatch(pending, index);
    ClearsByStatus(batch, turns(k).reply);
    if batch[0].draft.kind == Event {
      BatchIsUniform(pending, index);
      assert forall e :: e in batch ==> e in pending;
    }
  }

  lemma BatchIsUniform(pending: seq<Entry>, index: nat)
    requires index < |pending|
    ensures forall e :: e in NextBatch(pending, index) ==> e.draft == pending[index].draft
  {
    RunIsUniform(pending, index + 1, pending[index], 1);
  }

  lemma {:induction false} RunIsUniform(pending: seq<Entry>, index: nat, head: Entry, taken: nat)
    requires index <= |pending|
    ensures forall k :: index <= k < index + RunLength(pending, index, head, taken) ==> pending[k].draft == head.draft
    decreases |pending| - index
  {
    if index < |pending| && taken < MAX_EVENT_BATCH && pending[index].draft == head.draft {
      RunIsUniform(pending, index + 1, head, taken + 1);
    }
  }

  /** A flush the server answers in full leaves none of what it sent, whatever jobs and kinds it is of,
      and the counter at zero. */
  lemma FullyTakenFlush(cfg: Config, s: State, turns: nat -> Turn)
    requires Peek(s.entries, MAX_EVENT_BATCH) != [] && TakesAll(Peek(s.entries, MAX_EVENT_BATCH), turns)
    ensures AllLeft(Flush(cfg, s, turns, false), Peek(s.entries, MAX_EVENT_BATCH))
  {
    var pending := Peek(s.entries, MAX_EVENT_BATCH);
    TakenBatchesClear(cfg, s, pending, 0, turns, 0);
    var sent := Deliveries(cfg, s, pending, 0, turns, 0).0;
    WithoutAreGone(sent.entries, Ids(pending));
    assert Flush(cfg, s, turns, false) == Acknowledge(sent, Ids(pending), false);
    hide *;
    AcknowledgeIs(sent, Ids(pending));
    forall e | e in pending
      ensures e.id in Ids(pending)
    {
      var k :| 0 <= k < |pending| && pending[k] == e;
      assert Ids(pending)[k] == e.id;
    }
    LeftMeans(Flush(cfg, s, turns, false), pending);
  }

  lemma AcknowledgeIs(s: State, ids: seq<Id>)
    ensures Acknowledge(s, ids, false).entries == Without(s.entries, ids) && Acknowledge(s, ids, false).attempts == s.attempts
  {
  }
}
