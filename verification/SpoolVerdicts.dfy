/** What the server said of each entry of a delivery, and when a batch that clears holds entries it
    said nothing final about. */
module SpoolVerdicts {
  import opened Wrappers
  import opened Spool
  import opened SpoolDelivery

  lemma {:induction false} FirstUnsettledIsFirst(batch: seq<Entry>, results: seq<EventResult>)
    ensures FirstUnsettled(batch, results).None? <==> forall e :: e in batch ==> IsSettled(results, e.id)
    ensures FirstUnsettled(batch, results).Some? ==>
              exists k :: 0 <= k < |batch| && batch[k].id == FirstUnsettled(batch, results).value &&
                          !IsSettled(results, batch[k].id) && forall j :: 0 <= j < k ==> IsSettled(results, batch[j].id)
  {
    if batch != [] {
      FirstUnsettledIsFirst(batch[1..], results);
      assert batch == [batch[0]] + batch[1..];
      var rest := FirstUnsettled(batch[1..], results);
      if !IsSettled(results, batch[0].id) {
        assert batch[0] in batch;
      } else if rest.Some? {
        var k :| 0 <= k < |batch[1..]| && batch[1..][k].id == rest.value && !IsSettled(results, batch[1..][k].id) &&
                 forall j :: 0 <= j < k ==> IsSettled(results, batch[1..][j].id);
        forall j | 0 <= j < k + 1
          ensures IsSettled(results, batch[j].id)
        {
          assert j > 0 ==> batch[j] == batch[1..][j - 1];
        }
        assert batch[k + 1] == batch[1..][k];
      }
    }
  }

  /** The status the server listed first for the entry is a refusal that can never turn. */
  predicate RejectedForGood(results: seq<EventResult>, id: Id) {
    IsTerminal(ConflictOf(StatusOf(results, id)))
  }

  /** An answered event batch clears exactly when every entry settled or the first that did not
      was rejected for good; whatever stands behind that one clears with it. */
  lemma ClearsExactlyWhen(batch: seq<Entry>, results: seq<EventResult>)
    requires batch != [] && batch[0].draft.kind.Event?
    ensures Clears(Deliver(batch, Answered(results))) <==>
            (forall e :: e in batch ==> IsSettled(results, e.id)) ||
            exists k :: 0 <= k < |batch| && RejectedForGood(results, batch[k].id) && !IsSettled(results, batch[k].id) &&
                        forall j :: 0 <= j < k ==> IsSettled(results, batch[j].id)
  {
    FirstUnsettledIsFirst(batch, results);
    var first := FirstUnsettled(batch, results);
    if first.Some? {
      var k :| 0 <= k < |batch| && batch[k].id == first.value && !IsSettled(results, batch[k].id) &&
               forall j :: 0 <= j < k ==> IsSettled(results, batch[j].id);
      assert batch[k] in batch;
      if o :| 0 <= o < |batch| && RejectedForGood(results, batch[o].id) && !IsSettled(results, batch[o].id) &&
              forall j :: 0 <= j < o ==> IsSettled(results, batch[j].id) {
        assert o == k;
      }
    }
  }

  // ---- One entry's verdict ----

  /** The server took entry `k`. */
  predicate Settles(batch: seq<Entry>, reply: Reply, k: nat)
    requires k < |batch|
  {
    reply.Answered? && (batch[0].draft.kind.Event? ==> IsSettled(reply.results, batch[k].id))
  }

  /** The server will never take entry `k`. */
  predicate Rejects(batch: seq<Entry>, reply: Reply, k: nat)
    requires k < |batch|
  {
    if batch[0].draft.kind.Completion? then reply == Threw(true)
    else reply.Answered? && !IsSettled(reply.results, batch[k].id) && RejectedForGood(reply.results, batch[k].id)
  }

  /** Every entry before `j` was taken and `j` was rejected, and entry `k` stands behind it. */
  predicate StandsBehind(batch: seq<Entry>, reply: Reply, k: nat)
    requires k < |batch|
  {
    exists j :: 0 <= j < k && Rejects(batch, reply, j) && forall i :: 0 <= i < j ==> Settles(batch, reply, i)
  }

  predicate IsAnsweredFor(batch: seq<Entry>, reply: Reply, k: nat)
    requires k < |batch|
  {
    Settles(batch, reply, k) || Rejects(batch, reply, k) || StandsBehind(batch, reply, k)
  }

  /** In a batch that clears each entry was taken, rejected for good, or stands behind a rejected one. */
  lemma ClearedEntriesAre(batch: seq<Entry>, reply: Reply, k: nat)
    requires k < |batch| && (batch[0].draft.kind.Completion? ==> |batch| == 1)
    requires Clears(Deliver(batch, reply))
    ensures IsAnsweredFor(batch, reply, k)
  {
    if batch[0].draft.kind.Event? {
      ClearsExactlyWhen(batch, reply.results);
      if j :| 0 <= j < |batch| && RejectedForGood(reply.results, batch[j].id) && !IsSettled(reply.results, batch[j].id) &&
              forall i :: 0 <= i < j ==> IsSettled(reply.results, batch[i].id) {
        assert Rejects(batch, reply, j) && forall i :: 0 <= i < j ==> Settles(batch, reply, i);
      } else {
        assert batch[k] in batch;
      }
    }
  }

  predicate DistinctIds(batch: seq<Entry>) {
    forall i, j :: 0 <= i < j < |batch| ==> batch[i].id != batch[j].id
  }

  /** Every reply that clears the batch took or rejected each of its entries. */
  ghost predicate ClearsOnVerdictsAlone(batch: seq<Entry>)
    requires batch != []
  {
    forall results :: Clears(Deliver(batch, Answered(results))) ==>
      forall k :: 0 <= k < |batch| ==> Settles(batch, Answered(results), k) || Rejects(batch, Answered(results), k)
  }

  /** Clearing a batch of events speaks for each of its entries, whatever the server answers,
      exactly when the batch is a single entry. */
  lemma OnlySinglesClearOnVerdicts(batch: seq<Entry>)
    requires batch != [] && batch[0].draft.kind.Event? && DistinctIds(batch)
    ensures ClearsOnVerdictsAlone(batch) <==> |batch| == 1
  {
    if |batch| == 1 {
      forall results | Clears(Deliver(batch, Answered(results)))
        ensures forall k :: 0 <= k < |batch| ==> Settles(batch, Answered(results), k) || Rejects(batch, Answered(results), k)
      {
        ClearedEntriesAre(batch, Answered(results), 0);
      }
    } else {
      var results := [EventResult(batch[0].id, Refused(TerminalEvent)), EventResult(batch[1].id, Refused(SequenceGap))];
      assert results[1..][0] == results[1];
      ClearsExactlyWhen(batch, results);
      assert StatusOf(results, batch[0].id) == Some(Refused(TerminalEvent)) && !IsSettled(results, batch[0].id);
      assert StatusOf(results, batch[1].id) == Some(Refused(SequenceGap)) && !IsSettled(results, batch[1].id);
      assert !Settles(batch, Answered(results), 1) && !Rejects(batch, Answered(results), 1);
    }
  }
}
