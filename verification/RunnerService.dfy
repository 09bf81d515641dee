/** The runner's delivery loop as the service runs it, over its spool and its retry counter. */
module RunnerService {
  import opened Wrappers
  import opened Spool
  import D = SpoolDelivery

  class RunnerService {
    const cfg: D.Config
    const spool: MemorySpool
    var retryAttempts: nat
    var nextId: Id
    ghost var accepted: seq<Draft>
    ghost var log: seq<D.Note>

    ghost predicate Valid()
      reads this
    {
      nextId == |accepted| && spool.maxEntries == cfg.maxEntries
    }

    ghost function State(): D.State
      reads this, spool
    {
      D.State(spool.entries, retryAttempts, accepted, log)
    }

    constructor (cfg: D.Config, spool: MemorySpool)
      requires spool.maxEntries == cfg.maxEntries
      ensures Valid() && this.cfg == cfg && this.spool == spool
      ensures State() == D.State(spool.entries, 0, [], [])
    {
      this.cfg := cfg;
      this.spool := spool;
      retryAttempts := 0;
      nextId := 0;
      accepted := [];
      log := [];
    }

    /** A job's event or completion goes to the spool under an id of its own. */
    method Hand(draft: Draft) returns (ok: bool)
      requires Valid()
      modifies this, spool
      ensures Valid() && ok == (|old(spool.entries)| < cfg.maxEntries)
      ensures State() == D.Enqueue(cfg, old(State()), draft)
    {
      ok := spool.Enqueue(Entry(nextId, draft, false));
      if ok {
        nextId := nextId + 1;
        accepted := accepted + [draft];
      }
    }

    /** What jobs hand over while a delivery is out. */
    method HandAll(drafts: seq<Draft>)
      requires Valid()
      modifies this, spool
      ensures Valid() && State() == D.EnqueueAll(cfg, old(State()), drafts)
    {
      var k := 0;
      while k < |drafts|
        invariant k <= |drafts| && Valid()
        invariant State() == D.EnqueueAll(cfg, old(State()), drafts[..k])
      {
        var _ := Hand(drafts[k]);
        assert drafts[..k + 1][..k] == drafts[..k];
        k := k + 1;
      }
      assert drafts[..k] == drafts;
    }

    method Batch(pending: seq<Entry>, index: nat) returns (batch: seq<Entry>)
      requires index < |pending|
      ensures batch == D.NextBatch(pending, index)
    {
      var head := pending[index];
      if head.draft.kind != Event {
        return [head];
      }
      batch := [head];
      var k := index + 1;
      while k < |pending| && !(|batch| >= D.MAX_EVENT_BATCH || pending[k].draft != head.draft)
        invariant index < k <= |pending| && batch == pending[index..k]
        invariant D.RunLength(pending, index + 1, head, 1) == k - index - 1 + D.RunLength(pending, k, head, k - index)
      {
        batch := batch + [pending[k]];
        k := k + 1;
      }
    }

    method RetryOrDeadLetter(ids: seq<Id>)
      requires Valid()
      modifies this, spool
      ensures Valid() && State() == D.RetryOrDeadLetter(cfg, old(State()), ids)
    {
      retryAttempts := retryAttempts + 1;
      if retryAttempts < cfg.maxAttempts {
        return;
      }
      retryAttempts := 0;
      spool.DeadLetter(ids);
      log := log + [D.Died(ids)];
    }

    /** None when the delivery threw: the failure is charged to the whole batch. */
    method TryDeliver(batch: seq<Entry>, reply: D.Reply) returns (outcome: Option<D.Outcome>)
      requires Valid() && batch != []
      modifies this, spool
      ensures Valid()
      ensures var result := D.Deliver(batch, reply);
              var sent := old(State()).(log := old(log) + [D.Sent(batch, reply)]);
              if result.Failed? then outcome == None && State() == D.RetryOrDeadLetter(cfg, sent, Ids(batch))
              else outcome == Some(result) && State() == sent
    {
      var result := D.Deliver(batch, reply);
      log := log + [D.Sent(batch, reply)];
      if result.Failed? {
        RetryOrDeadLetter(Ids(batch));
        return None;
      }
      return Some(result);
    }

    /** Whether the batch left the queue; if not, the attempt is charged to its failed entry. */
    method SettleOutcome(outcome: D.Outcome) returns (left: bool)
      requires Valid() && !outcome.Failed?
      modifies this, spool
      ensures Valid() && left == D.Clears(outcome)
      ensures State() == if left then old(State()).(attempts := 0)
                         else D.RetryOrDeadLetter(cfg, old(State()), [outcome.entry])
    {
      if outcome.Settled? {
        retryAttempts := 0;
        return true;
      }
      if D.IsTerminal(outcome.conflict) {
        retryAttempts := 0;
        return true;
      }
      RetryOrDeadLetter([outcome.entry]);
      return false;
    }

    /** Sends one batch, during which `turn.arrivals` are handed over, and settles what came back. */
    method SendBatch(batch: seq<Entry>, turn: D.Turn) returns (left: bool)
      requires Valid() && batch != []
      modifies this, spool
      ensures Valid() && State() == D.Turned(cfg, old(State()), batch, turn)
      ensures left == D.Clears(D.Deliver(batch, turn.reply))
    {
      HandAll(turn.arrivals);
      var outcome := TryDeliver(batch, turn.reply);
      if outcome.None? {
        return false;
      }
      left := SettleOutcome(outcome.value);
    }

    /** Sends batch after batch until one stays queued. */
    method SendPending(pending: seq<Entry>, turns: nat -> D.Turn) returns (settledIds: seq<Id>, all: bool)
      requires Valid()
      modifies this, spool
      ensures Valid() && (State(), all) == D.Deliveries(cfg, old(State()), pending, 0, turns, 0)
      ensures all ==> settledIds == Ids(pending)
    {
      hide *;
      var index, k := 0, 0;
      settledIds := [];
      ghost var goal := D.Deliveries(cfg, State(), pending, 0, turns, 0);
      while index < |pending|
        invariant index <= |pending| && Valid() && settledIds == Ids(pending[..index])
        invariant goal == D.Deliveries(cfg, State(), pending, index, turns, k)
      {
        var batch := Batch(pending, index);
        D.DeliveriesStep(cfg, State(), pending, index, turns, k);
        var left := SendBatch(batch, turns(k));
        if !left {
          return settledIds, false;
        }
        settledIds := settledIds + Ids(batch);
        index, k := index + |batch|, k + 1;
      }
      assert pending[..index] == pending;
      D.DeliveriesEnd(cfg, State(), pending, turns, k);
      return settledIds, true;
    }

    /** One flush. `turns(k)` is what meets its delivery `k`; `ackFails` is whether the spool throws
        when told to acknowledge. */
    method Flush(turns: nat -> D.Turn, ackFails: bool)
      requires Valid()
      modifies this, spool
      ensures Valid() && State() == D.Flush(cfg, old(State()), turns, ackFails)
    {
      var pending := Peek(spool.entries, D.MAX_EVENT_BATCH);
      var settledIds, all := SendPending(pending, turns);
      if !all || settledIds == [] {
        return;
      }
      if ackFails {
        retryAttempts := retryAttempts + 1;
      } else {
        spool.Ack(settledIds);
        log := log + [D.Acked(settledIds)];
      }
    }
  }
}
