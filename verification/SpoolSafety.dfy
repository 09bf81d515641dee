/** What every run of the spool keeps: nothing is lost or duplicated, entries are acknowledged only
    after they cleared, and delivery is first-in first-out. */
module SpoolSafety {
  import opened Wrappers
  import opened Spool
  import opened SpoolDelivery
  import opened SpoolVerdicts

  predicate ClearedBefore(log: seq<Note>, n: nat, id: Id) {
    exists m :: 0 <= m < n && m < |log| && log[m].Cleared() && id in log[m].Named()
  }

  predicate DiedBefore(log: seq<Note>, n: nat, id: Id) {
    exists m :: 0 <= m < n && m < |log| && log[m].Died? && id in log[m].Named()
  }

  predicate WasAcked(log: seq<Note>, id: Id) {
    exists m :: 0 <= m < |log| && log[m].Acked? && id in log[m].Named()
  }

  /** Delivered, rejected for good, or given up on, before note `n`. */
  predicate ReleasedBefore(log: seq<Note>, n: nat, id: Id) {
    ClearedBefore(log, n, id) || DiedBefore(log, n, id)
  }

  // ---- The invariant ----

  /** Entries are the accepted drafts still held, in the order they were accepted. */
  predicate Faithful(s: State) {
    Sorted(s.entries) &&
    forall e :: e in s.entries ==> e.id < |s.accepted| && e.draft == s.accepted[e.id]
  }

  predicate Held(entries: seq<Entry>, id: Id) {
    exists e :: e in entries && e.id == id
  }

  predicate HeldDead(entries: seq<Entry>, id: Id) {
    exists e :: e in entries && e.id == id && e.dead
  }

  /** An accepted entry is held or acknowledged and never both; a held one is dead exactly when it
      was dead-lettered. */
  predicate ConservedAt(s: State, id: Id) {
    (Held(s.entries, id) <==> id < |s.accepted| && !WasAcked(s.log, id)) &&
    (HeldDead(s.entries, id) <==> DiedBefore(s.log, |s.log|, id)) &&
    (WasAcked(s.log, id) ==> id < |s.accepted|)
  }

  ghost predicate Conserved(s: State) {
    forall id: Id :: ConservedAt(s, id)
  }

  predicate AckSound(log: seq<Note>, m: nat)
    requires m < |log|
  {
    log[m].Acked? ==> forall id :: id in log[m].Named() ==> ClearedBefore(log, m, id)
  }

  /** An entry is sent only when every earlier one was released or goes out with it. */
  ghost predicate InOrder(log: seq<Note>, m: nat)
    requires m < |log|
  {
    log[m].Sent? ==>
      forall id, e: Id :: id in log[m].Named() && e < id ==> e in log[m].Named() || ReleasedBefore(log, m, e)
  }

  /** Only what a failed delivery was charged for is dead-lettered. */
  predicate DeathSound(log: seq<Note>, m: nat)
    requires m < |log|
  {
    log[m].Died? ==>
      m > 0 && log[m - 1].Sent? && !log[m - 1].Cleared() && forall id :: id in log[m].Named() ==> id in log[m - 1].Named()
  }

  ghost predicate NoteSound(log: seq<Note>, m: nat)
    requires m < |log|
  {
    AckSound(log, m) && InOrder(log, m) && DeathSound(log, m)
  }

  ghost predicate LogSound(log: seq<Note>) {
    forall m :: 0 <= m < |log| ==> NoteSound(log, m)
  }

  /** A batch carries entries of one job and one kind, and a completion goes out alone. */
  predicate BatchSound(accepted: seq<Draft>, log: seq<Note>, m: nat)
    requires m < |log|
  {
    log[m].Sent? ==>
      log[m].batch != [] && (log[m].batch[0].draft.kind.Completion? ==> |log[m].batch| == 1) &&
      forall a, b :: a in log[m].Named() && b in log[m].Named() ==>
        a < |accepted| && b < |accepted| && accepted[a] == accepted[b] &&
        (accepted[a].kind.Completion? ==> log[m].Named() == [a])
  }

  ghost predicate Inv(s: State) {
    Faithful(s) && Conserved(s) && LogSound(s.log) && forall m :: 0 <= m < |s.log| ==> BatchSound(s.accepted, s.log, m)
  }

  // ---- Growing the log ----

  lemma NotesStay(log: seq<Note>, note: Note, n: nat, id: Id)
    requires n <= |log|
    ensures ClearedBefore(log + [note], n, id) == ClearedBefore(log, n, id)
    ensures DiedBefore(log + [note], n, id) == DiedBefore(log, n, id)
  {
    var longer := log + [note];
    assert forall m :: 0 <= m < |log| ==> longer[m] == log[m];
  }

  lemma LogGrows(log: seq<Note>, note: Note)
    requires LogSound(log) && NoteSound(log + [note], |log|)
    ensures LogSound(log + [note])
  {
    var longer := log + [note];
    forall m | 0 <= m < |log|
      ensures NoteSound(longer, m)
    {
      assert NoteSound(log, m) && longer[m] == log[m];
      forall id: Id
        ensures ClearedBefore(longer, m, id) == ClearedBefore(log, m, id) && ReleasedBefore(longer, m, id) == ReleasedBefore(log, m, id)
      {
        NotesStay(log, note, m, id);
      }
    }
  }

  lemma LogExtends(log: seq<Note>, note: Note, id: Id)
    ensures WasAcked(log + [note], id) <==> WasAcked(log, id) || (note.Acked? && id in note.ids)
    ensures DiedBefore(log + [note], |log| + 1, id) <==> DiedBefore(log, |log|, id) || (note.Died? && id in note.ids)
    ensures ClearedBefore(log + [note], |log| + 1, id) <==> ClearedBefore(log, |log|, id) || (note.Cleared() && id in note.Named())
  {
    var longer := log + [note];
    assert longer[|log|] == note && forall m :: 0 <= m < |log| ==> longer[m] == log[m];
  }

  // ---- One step keeps it ----

  /** What a flush knows of the entries it took: they still head the deliverable ones, and those
      before `index` have cleared. */
  ghost predicate Window(s: State, pending: seq<Entry>, index: nat) {
    index <= |pending| && pending <= Deliverable(s.entries) &&
    forall j :: 0 <= j < index ==> ClearedBefore(s.log, |s.log|, pending[j].id)
  }

  lemma EnqueueKeeps(cfg: Config, s: State, draft: Draft)
    requires Inv(s)
    ensures Inv(Enqueue(cfg, s, draft))
    ensures Deliverable(s.entries) <= Deliverable(Enqueue(cfg, s, draft).entries)
    ensures Enqueue(cfg, s, draft).log == s.log && s.accepted <= Enqueue(cfg, s, draft).accepted
  {
    var next := Enqueue(cfg, s, draft);
    if next != s {
      forall m | 0 <= m < |next.log|
        ensures BatchSound(next.accepted, next.log, m)
      {
        assert BatchSound(s.accepted, s.log, m);
      }
      var entry := Entry(|s.accepted|, draft, false);
      assert next.entries[..|s.entries|] == s.entries;
      forall id: Id
        ensures ConservedAt(next, id)
      {
        assert ConservedAt(s, id) && ConservedAt(s, entry.id);
        assert forall e :: e in next.entries <==> e in s.entries || e == entry;
      }
    }
  }

  lemma {:induction false} EnqueueAllKeeps(cfg: Config, s: State, drafts: seq<Draft>)
    requires Inv(s)
    ensures Inv(EnqueueAll(cfg, s, drafts))
    ensures Deliverable(s.entries) <= Deliverable(EnqueueAll(cfg, s, drafts).entries)
    ensures EnqueueAll(cfg, s, drafts).log == s.log && s.accepted <= EnqueueAll(cfg, s, drafts).accepted
  {
    if drafts != [] {
      EnqueueAllKeeps(cfg, s, drafts[..|drafts| - 1]);
      EnqueueKeeps(cfg, EnqueueAll(cfg, s, drafts[..|drafts| - 1]), drafts[|drafts| - 1]);
    }
  }

  /** The reason a flush is first-in first-out: whatever is earlier than an entry of the batch has
      been released, or is in the batch. */
  lemma EarlierIsReleased(s: State, pending: seq<Entry>, index: nat, n: nat, j: nat, e: Id)
    requires Inv(s) && Window(s, pending, index)
    requires index <= j < index + n <= |pending| && e < pending[j].id
    ensures e in Ids(pending[index..index + n]) || ReleasedBefore(s.log, |s.log|, e)
  {
    DeliverableIsLive(s.entries);
    var live := Deliverable(s.entries);
    assert pending[j] == live[j] && live[j] in live;
    if WasAcked(s.log, e) {
      var m :| 0 <= m < |s.log| && s.log[m].Acked? && e in s.log[m].Named();
      assert NoteSound(s.log, m);
    } else {
      assert ConservedAt(s, e) && Held(s.entries, e);
      var x :| x in s.entries && x.id == e;
      if x.dead {
        assert HeldDead(s.entries, e);
      } else {
        assert x in live;
        var p :| 0 <= p < |live| && live[p] == x;
        assert p < j;
        if p >= index {
          assert Ids(pending[index..index + n])[p - index] == e;
        }
      }
    }
  }

  lemma BatchStays(accepted: seq<Draft>, log: seq<Note>, note: Note)
    requires forall m :: 0 <= m < |log| ==> BatchSound(accepted, log, m)
    requires BatchSound(accepted, log + [note], |log|)
    ensures forall m :: 0 <= m < |log + [note]| ==> BatchSound(accepted, log + [note], m)
  {
    forall m | 0 <= m < |log|
      ensures BatchSound(accepted, log + [note], m)
    {
      assert BatchSound(accepted, log, m);
    }
  }

  lemma SentKeeps(s: State, pending: seq<Entry>, index: nat, n: nat, reply: Reply)
    requires Inv(s) && Window(s, pending, index) && index < index + n <= |pending|
    requires forall k :: index < k < index + n ==> pending[k].draft == pending[index].draft && pending[k].draft.kind.Event?
    ensures var next := s.(log := s.log + [Sent(pending[index..index + n], reply)]);
            Inv(next) && (Clears(Deliver(pending[index..index + n], reply)) ==> Window(next, pending, index + n))
  {
    var ids := Ids(pending[index..index + n]);
    var note := Sent(pending[index..index + n], reply);
    forall id, e: Id | id in ids && e < id
      ensures e in ids || ReleasedBefore(s.log + [note], |s.log|, e)
    {
      var k :| 0 <= k < |ids| && ids[k] == id;
      EarlierIsReleased(s, pending, index, n, index + k, e);
      NotesStay(s.log, note, |s.log|, e);
    }
    LogGrows(s.log, note);
    SentConserves(s, note);
    SentIsUniform(s, pending, index, n, reply);
    BatchStays(s.accepted, s.log, note);
    if note.Cleared() {
      WindowMoves(s, pending, index, n, reply);
    }
  }

  lemma SentConserves(s: State, note: Note)
    requires Conserved(s) && note.Sent?
    ensures Conserved(s.(log := s.log + [note]))
  {
    forall id: Id
      ensures ConservedAt(s.(log := s.log + [note]), id)
    {
      assert ConservedAt(s, id);
      LogExtends(s.log, note, id);
    }
  }

  lemma SentIsUniform(s: State, pending: seq<Entry>, index: nat, n: nat, reply: Reply)
    requires Faithful(s) && pending <= Deliverable(s.entries) && index < index + n <= |pending|
    requires forall k :: index < k < index + n ==> pending[k].draft == pending[index].draft && pending[k].draft.kind.Event?
    ensures BatchSound(s.accepted, s.log + [Sent(pending[index..index + n], reply)], |s.log|)
  {
    var ids := Ids(pending[index..index + n]);
    DeliverableIsLive(s.entries);
    forall id | id in ids
      ensures id < |s.accepted| && s.accepted[id] == pending[index].draft
    {
      var k :| 0 <= k < |ids| && ids[k] == id;
      assert pending[index + k] == Deliverable(s.entries)[index + k] && pending[index + k] in Deliverable(s.entries);
    }
    assert n > 1 ==> pending[index + 1].draft.kind.Event?;
  }

  lemma WindowMoves(s: State, pending: seq<Entry>, index: nat, n: nat, reply: Reply)
    requires Window(s, pending, index) && index < index + n <= |pending|
    requires Clears(Deliver(pending[index..index + n], reply))
    ensures Window(s.(log := s.log + [Sent(pending[index..index + n], reply)]), pending, index + n)
  {
    var note := Sent(pending[index..index + n], reply);
    forall j | 0 <= j < index + n
      ensures ClearedBefore(s.log + [note], |s.log| + 1, pending[j].id)
    {
      LogExtends(s.log, note, pending[j].id);
      if j >= index { assert note.Named()[j - index] == pending[j].id; }
    }
  }

  lemma DiedKeeps(s: State, ids: seq<Id>)
    requires Inv(s) && s.log != []
    requires var last := s.log[|s.log| - 1]; last.Sent? && !last.Cleared() && forall id :: id in ids ==> id in last.Named()
    requires forall id :: id in ids ==> Held(s.entries, id)
    ensures Inv(s.(entries := DeadLettered(s.entries, ids), log := s.log + [Died(ids)]))
  {
    var note := Died(ids);
    LogGrows(s.log, note);
    BatchStays(s.accepted, s.log, note);
    var next := s.(entries := DeadLettered(s.entries, ids), log := s.log + [note]);
    forall id: Id
      ensures ConservedAt(next, id)
    {
      assert ConservedAt(s, id);
      LogExtends(s.log, note, id);
      MarkedAre(s.entries, ids, id);
    }
  }

  lemma MarkedAre(entries: seq<Entry>, ids: seq<Id>, id: Id)
    requires forall i :: i in ids ==> Held(entries, i)
    ensures Held(DeadLettered(entries, ids), id) <==> Held(entries, id)
    ensures HeldDead(DeadLettered(entries, ids), id) <==> HeldDead(entries, id) || id in ids
  {
  }

  lemma WithoutHolds(entries: seq<Entry>, ids: seq<Id>, id: Id)
    requires Sorted(entries)
    ensures Held(Without(entries, ids), id) <==> Held(entries, id) && id !in ids
    ensures HeldDead(Without(entries, ids), id) <==> HeldDead(entries, id) && id !in ids
  {
  }

  lemma LiveIsNotDead(s: State, pending: seq<Entry>, k: nat)
    requires Sorted(s.entries) && pending <= Deliverable(s.entries) && k < |pending|
    ensures Held(s.entries, pending[k].id) && !HeldDead(s.entries, pending[k].id)
  {
    DeliverableIsLive(s.entries);
    assert pending[k] == Deliverable(s.entries)[k] && pending[k] in Deliverable(s.entries);
  }

  lemma AckKeeps(s: State, pending: seq<Entry>)
    requires Inv(s) && Window(s, pending, |pending|)
    ensures Inv(s.(entries := Without(s.entries, Ids(pending)), log := s.log + [Acked(Ids(pending))]))
  {
    var ids := Ids(pending);
    var note := Acked(ids);
    forall id | id in ids
      ensures ClearedBefore(s.log + [note], |s.log|, id) && Held(s.entries, id) && !HeldDead(s.entries, id)
    {
      var k :| 0 <= k < |pending| && pending[k].id == id;
      NotesStay(s.log, note, |s.log|, id);
      LiveIsNotDead(s, pending, k);
    }
    LogGrows(s.log, note);
    BatchStays(s.accepted, s.log, note);
    WithoutRemoves(s.entries, ids);
    AckConserves(s, ids);
  }

  lemma AckConserves(s: State, ids: seq<Id>)
    requires Faithful(s) && Conserved(s)
    requires forall id :: id in ids ==> Held(s.entries, id) && !HeldDead(s.entries, id)
    ensures Conserved(s.(entries := Without(s.entries, ids), log := s.log + [Acked(ids)]))
  {
    var next := s.(entries := Without(s.entries, ids), log := s.log + [Acked(ids)]);
    forall id: Id
      ensures ConservedAt(next, id)
    {
      assert ConservedAt(s, id);
      LogExtends(s.log, Acked(ids), id);
      WithoutHolds(s.entries, ids, id);
    }
  }

  // ---- A flush, and a run of them, keep it ----

  lemma {:induction false} RunLengthIsUniform(pending: seq<Entry>, index: nat, head: Entry, taken: nat)
    requires index <= |pending|
    ensures forall k :: index <= k < index + RunLength(pending, index, head, taken) ==> pending[k].draft == head.draft
    decreases |pending| - index
  {
    if RunLength(pending, index, head, taken) > 0 {
      RunLengthIsUniform(pending, index + 1, head, taken + 1);
    }
  }

  lemma BatchIsUniform(pending: seq<Entry>, index: nat)
    requires index < |pending|
    ensures forall k :: index < k < index + |NextBatch(pending, index)| ==>
              pending[k].draft == pending[index].draft && pending[k].draft.kind.Event?
  {
    RunLengthIsUniform(pending, index + 1, pending[index], 1);
  }

  lemma {:induction false} RunStopsWhere(pending: seq<Entry>, index: nat, head: Entry, taken: nat)
    requires index <= |pending| && taken <= MAX_EVENT_BATCH
    ensures var n := RunLength(pending, index, head, taken);
            taken + n <= MAX_EVENT_BATCH &&
            (index + n == |pending| || taken + n == MAX_EVENT_BATCH || pending[index + n].draft != head.draft)
    decreases |pending| - index
  {
    if RunLength(pending, index, head, taken) > 0 {
      RunStopsWhere(pending, index + 1, head, taken + 1);
    }
  }

  /** A batch of events takes all it can: it ends with the entries, at a hundred, or where the job
      or the kind changes. */
  lemma BatchIsMaximal(pending: seq<Entry>, index: nat)
    requires index < |pending| && pending[index].draft.kind.Event?
    ensures var n := |NextBatch(pending, index)|;
            n <= MAX_EVENT_BATCH && (forall k :: index <= k < index + n ==> pending[k].draft == pending[index].draft) &&
            (index + n == |pending| || n == MAX_EVENT_BATCH || pending[index + n].draft != pending[index].draft)
  {
    BatchIsUniform(pending, index);
    RunStopsWhere(pending, index + 1, pending[index], 1);
  }

  lemma {:induction false} UnsettledIsOfBatch(batch: seq<Entry>, results: seq<EventResult>)
    ensures FirstUnsettled(batch, results).Some? ==> Held(batch, FirstUnsettled(batch, results).value)
  {
    if batch != [] && IsSettled(results, batch[0].id) {
      UnsettledIsOfBatch(batch[1..], results);
    } else if batch != [] {
      assert batch[0] in batch;
    }
  }

  lemma ChargedIsOfBatch(batch: seq<Entry>, reply: Reply)
    requires batch != []
    ensures forall id :: id in Charged(batch, Deliver(batch, reply)) ==> id in Ids(batch)
  {
    if reply.Answered? {
      UnsettledIsOfBatch(batch, reply.results);
    }
    forall id | Held(batch, id)
      ensures id in Ids(batch)
    {
      var k :| 0 <= k < |batch| && batch[k].id == id;
      assert Ids(batch)[k] == id;
    }
    assert Held(batch, batch[0].id);
  }

  lemma RetryKeeps(cfg: Config, s: State, pending: seq<Entry>, index: nat, batch: seq<Entry>, ids: seq<Id>)
    requires Inv(s) && index + |batch| <= |pending| && pending <= Deliverable(s.entries)
    requires batch == pending[index..index + |batch|] && forall id :: id in ids ==> id in Ids(batch)
    requires s.log != [] && s.log[|s.log| - 1].Sent? && s.log[|s.log| - 1].batch == batch && !s.log[|s.log| - 1].Cleared()
    ensures Inv(RetryOrDeadLetter(cfg, s, ids))
  {
    if s.attempts + 1 < cfg.maxAttempts {
      AttemptsDoNotMatter(s, s.attempts + 1);
    } else {
      forall id | id in ids
        ensures Held(s.entries, id)
      {
        var k :| 0 <= k < |batch| && Ids(batch)[k] == id;
        LiveIsNotDead(s, pending, index + k);
      }
      DiedKeeps(s, ids);
      AttemptsDoNotMatter(s.(entries := DeadLettered(s.entries, ids), log := s.log + [Died(ids)]), 0);
    }
  }

  lemma SettleKeeps(cfg: Config, s: State, pending: seq<Entry>, index: nat, reply: Reply)
    requires Inv(s) && index < |pending| && Window(s, pending, index)
    ensures var batch := NextBatch(pending, index);
            Inv(Settle(cfg, s, batch, reply)) &&
            (Clears(Deliver(batch, reply)) ==> Window(Settle(cfg, s, batch, reply), pending, index + |batch|))
  {
    var batch := NextBatch(pending, index);
    BatchIsUniform(pending, index);
    ChargedIsOfBatch(batch, reply);
    SentKeeps(s, pending, index, |batch|, reply);
    var sent := s.(log := s.log + [Sent(batch, reply)]);
    if Clears(Deliver(batch, reply)) {
      AttemptsDoNotMatter(sent, 0);
    } else {
      RetryKeeps(cfg, sent, pending, index, batch, Charged(batch, Deliver(batch, reply)));
    }
  }

  lemma TurnKeeps(cfg: Config, s: State, pending: seq<Entry>, index: nat, turn: Turn)
    requires Inv(s) && index < |pending| && Window(s, pending, index)
    ensures var batch := NextBatch(pending, index);
            Inv(Turned(cfg, s, batch, turn)) &&
            (Clears(Deliver(batch, turn.reply)) ==> Window(Turned(cfg, s, batch, turn), pending, index + |batch|))
  {
    EnqueueAllKeeps(cfg, s, turn.arrivals);
    var queued := EnqueueAll(cfg, s, turn.arrivals);
    assert Window(queued, pending, index);
    SettleKeeps(cfg, queued, pending, index, turn.reply);
  }

  lemma AttemptsDoNotMatter(s: State, attempts: nat)
    ensures Inv(s.(attempts := attempts)) == Inv(s)
  {
    var t := s.(attempts := attempts);
    assert forall id: Id :: ConservedAt(t, id) == ConservedAt(s, id);
  }

  lemma {:induction false} DeliveriesKeep(cfg: Config, s: State, pending: seq<Entry>, index: nat, turns: nat -> Turn, k: nat)
    requires Inv(s) && index <= |pending| && Window(s, pending, index)
    ensures var r := Deliveries(cfg, s, pending, index, turns, k);
            Inv(r.0) && (r.1 ==> Window(r.0, pending, |pending|))
    decreases |pending| - index
  {
    hide *;
    if index == |pending| {
      DeliveriesEnd(cfg, s, pending, turns, k);
    } else {
      var batch := NextBatch(pending, index);
      TurnKeeps(cfg, s, pending, index, turns(k));
      DeliveriesStep(cfg, s, pending, index, turns, k);
      if Clears(Deliver(batch, turns(k).reply)) {
        DeliveriesKeep(cfg, Turned(cfg, s, batch, turns(k)), pending, index + |batch|, turns, k + 1);
      }
    }
  }

  lemma FlushKeeps(cfg: Config, s: State, turns: nat -> Turn, ackFails: bool)
    requires Inv(s)
    ensures Inv(Flush(cfg, s, turns, ackFails))
  {
    hide *;
    var pending := Peek(s.entries, MAX_EVENT_BATCH);
    WindowOpens(s);
    DeliveriesKeep(cfg, s, pending, 0, turns, 0);
    var r := Deliveries(cfg, s, pending, 0, turns, 0);
    FlushIs(cfg, s, turns, ackFails);
    AcknowledgeKeeps(r.0, pending, ackFails);
  }

  lemma WindowOpens(s: State)
    ensures Window(s, Peek(s.entries, MAX_EVENT_BATCH), 0)
  {
  }

  lemma FlushIs(cfg: Config, s: State, turns: nat -> Turn, ackFails: bool)
    ensures var pending := Peek(s.entries, MAX_EVENT_BATCH);
            var r := Deliveries(cfg, s, pending, 0, turns, 0);
            Flush(cfg, s, turns, ackFails) == if !r.1 || pending == [] then r.0 else Acknowledge(r.0, Ids(pending), ackFails)
  {
  }

  lemma AcknowledgeKeeps(s: State, pending: seq<Entry>, ackFails: bool)
    requires Inv(s)
    ensures ackFails || Window(s, pending, |pending|) ==> Inv(Acknowledge(s, Ids(pending), ackFails))
  {
    if ackFails {
      AttemptsDoNotMatter(s, s.attempts + 1);
    } else if Window(s, pending, |pending|) {
      AckKeeps(s, pending);
    }
  }

  const EMPTY := State([], 0, [], [])

  lemma {:induction false} RunKeeps(cfg: Config, ops: seq<Op>)
    ensures Inv(Run(cfg, EMPTY, ops))
  {
    if ops != [] {
      RunKeeps(cfg, ops[..|ops| - 1]);
      var s := Run(cfg, EMPTY, ops[..|ops| - 1]);
      match ops[|ops| - 1]
      case Hand(draft) => EnqueueKeeps(cfg, s, draft);
      case DoFlush(turns, ackFails) => FlushKeeps(cfg, s, turns, ackFails);
    }
  }

  // ---- The results ----

  predicate Pending(s: State, id: Id) {
    Held(s.entries, id) && !HeldDead(s.entries, id)
  }

  /** After any run each accepted entry is in exactly one of pending, dead-lettered and
      acknowledged, and the queue holds the first two in the order they were accepted. */
  lemma EntriesAreConserved(cfg: Config, ops: seq<Op>, id: Id)
    ensures var s := Run(cfg, EMPTY, ops);
            Sorted(s.entries) &&
            (id < |s.accepted| <==> Pending(s, id) || HeldDead(s.entries, id) || WasAcked(s.log, id)) &&
            !(Pending(s, id) && WasAcked(s.log, id)) && !(HeldDead(s.entries, id) && WasAcked(s.log, id))
  {
    RunKeeps(cfg, ops);
    assert ConservedAt(Run(cfg, EMPTY, ops), id);
  }

  /** A delivery before note `n` took the entry, rejected it for good, or had it stand behind one
      it rejected. */
  predicate AnsweredBefore(log: seq<Note>, n: nat, id: Id) {
    exists m, k {:trigger log[m].batch[k]} ::
      0 <= m < n && m < |log| && log[m].Sent? && 0 <= k < |log[m].batch| && log[m].batch[k].id == id &&
      IsAnsweredFor(log[m].batch, log[m].reply, k)
  }

  lemma ClearedIsAnswered(s: State, n: nat, id: Id)
    requires Inv(s) && ClearedBefore(s.log, n, id)
    ensures AnsweredBefore(s.log, n, id)
  {
    var m :| 0 <= m < n && m < |s.log| && s.log[m].Cleared() && id in s.log[m].Named();
    assert BatchSound(s.accepted, s.log, m);
    var batch := s.log[m].batch;
    var k :| 0 <= k < |batch| && Ids(batch)[k] == id;
    ClearedEntriesAre(batch, s.log[m].reply, k);
    assert s.log[m].batch[k].id == id;
  }

  /** An entry is acknowledged only after a delivery whose reply took it, rejected it for good, or
      rejected for good one it stood behind. */
  lemma AckedOnlyAfterClearing(cfg: Config, ops: seq<Op>, m: nat, id: Id)
    requires var log := Run(cfg, EMPTY, ops).log; m < |log| && log[m].Acked? && id in log[m].Named()
    ensures AnsweredBefore(Run(cfg, EMPTY, ops).log, m, id)
  {
    RunKeeps(cfg, ops);
    assert NoteSound(Run(cfg, EMPTY, ops).log, m);
    ClearedIsAnswered(Run(cfg, EMPTY, ops), m, id);
  }

  /** Whenever an entry is sent, each entry accepted before it has been released or is in the batch. */
  lemma DeliveryIsInOrder(cfg: Config, ops: seq<Op>, m: nat, id: Id, earlier: Id)
    requires var log := Run(cfg, EMPTY, ops).log; m < |log| && log[m].Sent? && id in log[m].Named()
    requires earlier < id
    ensures var log := Run(cfg, EMPTY, ops).log; earlier in log[m].Named() || ReleasedBefore(log, m, earlier)
  {
    RunKeeps(cfg, ops);
    assert NoteSound(Run(cfg, EMPTY, ops).log, m);
  }

  /** A completion is never sent until every entry accepted before it, of any job, was taken, was
      rejected for good, stood behind one rejected for good, or was dead-lettered. */
  lemma CompletionWaits(cfg: Config, ops: seq<Op>, m: nat, completion: Id, earlier: Id)
    requires var s := Run(cfg, EMPTY, ops);
             m < |s.log| && s.log[m].Sent? && completion in s.log[m].Named() &&
             completion < |s.accepted| && s.accepted[completion].kind.Completion? && earlier < completion
    ensures var log := Run(cfg, EMPTY, ops).log; AnsweredBefore(log, m, earlier) || DiedBefore(log, m, earlier)
  {
    hide *;
    DeliveryIsInOrder(cfg, ops, m, completion, earlier);
    RunKeeps(cfg, ops);
    var s := Run(cfg, EMPTY, ops);
    CompletionGoesAlone(s, m, completion, earlier);
    ReleasedMeans(s.log, m, earlier);
    if ClearedBefore(s.log, m, earlier) {
      ClearedIsAnswered(s, m, earlier);
    }
  }

  lemma CompletionGoesAlone(s: State, m: nat, completion: Id, earlier: Id)
    requires Inv(s) && m < |s.log| && s.log[m].Sent? && completion in s.log[m].Named()
    requires completion < |s.accepted| && s.accepted[completion].kind.Completion? && earlier != completion
    ensures earlier !in s.log[m].Named()
  {
    assert BatchSound(s.accepted, s.log, m);
  }

  lemma ReleasedMeans(log: seq<Note>, m: nat, id: Id)
    requires ReleasedBefore(log, m, id)
    ensures ClearedBefore(log, m, id) || DiedBefore(log, m, id)
  {
  }

  /** Only what an uncleared delivery was charged for is dead-lettered. */
  lemma DeadOnlyAfterFailure(cfg: Config, ops: seq<Op>, m: nat, id: Id)
    requires var log := Run(cfg, EMPTY, ops).log; m < |log| && log[m].Died? && id in log[m].Named()
    ensures var log := Run(cfg, EMPTY, ops).log;
            m > 0 && log[m - 1].Sent? && !log[m - 1].Cleared() && id in log[m - 1].Named()
  {
    RunKeeps(cfg, ops);
    assert NoteSound(Run(cfg, EMPTY, ops).log, m);
  }
}
