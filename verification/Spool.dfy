/** The runner's spool: a first-in first-out queue that keeps dead-lettered entries but no longer
    offers them for delivery. */
module Spool {
  type Id = nat

  datatype Kind = Event | Completion

  /** What a job hands over; the spool entry adds the id, a fresh one for every entry. */
  datatype Draft = Draft(job: Id, kind: Kind)

  datatype Entry = Entry(id: Id, draft: Draft, dead: bool)

  function Ids(entries: seq<Entry>): (ids: seq<Id>)
    ensures |ids| == |entries| && forall k :: 0 <= k < |entries| ==> ids[k] == entries[k].id
  {
    seq(|entries|, k requires 0 <= k < |entries| => entries[k].id)
  }

  function Deliverable(entries: seq<Entry>): seq<Entry> {
    if entries == [] then []
    else if entries[|entries| - 1].dead then Deliverable(entries[..|entries| - 1])
    else Deliverable(entries[..|entries| - 1]) + [entries[|entries| - 1]]
  }

  function Peek(entries: seq<Entry>, limit: nat): (head: seq<Entry>)
    ensures |head| <= limit && head <= Deliverable(entries)
  {
    var live := Deliverable(entries);
    if |live| <= limit then live else live[..limit]
  }

  function Without(entries: seq<Entry>, ids: seq<Id>): seq<Entry> {
    if entries == [] then []
    else if entries[|entries| - 1].id in ids then Without(entries[..|entries| - 1], ids)
    else Without(entries[..|entries| - 1], ids) + [entries[|entries| - 1]]
  }

  function DeadLettered(entries: seq<Entry>, ids: seq<Id>): (marked: seq<Entry>)
    ensures |marked| == |entries|
    ensures forall k :: 0 <= k < |entries| ==>
              marked[k] == if entries[k].id in ids then entries[k].(dead := true) else entries[k]
  {
    seq(|entries|, k requires 0 <= k < |entries| => if entries[k].id in ids then entries[k].(dead := true) else entries[k])
  }

  predicate Sorted(entries: seq<Entry>) {
    forall a, b :: 0 <= a < b < |entries| ==> entries[a].id < entries[b].id
  }

  // ---- What the filters keep ----

  lemma {:induction false} DeliverableIsLive(entries: seq<Entry>)
    requires Sorted(entries)
    ensures Sorted(Deliverable(entries))
    ensures forall e :: e in Deliverable(entries) <==> e in entries && !e.dead
  {
    if entries != [] {
      var front, last := entries[..|entries| - 1], entries[|entries| - 1];
      DeliverableIsLive(front);
      assert entries == front + [last];
      forall k | 0 <= k < |Deliverable(front)|
        ensures Deliverable(front)[k].id < last.id
      {
        assert Deliverable(front)[k] in front;
      }
    }
  }

  lemma {:induction false} WithoutRemoves(entries: seq<Entry>, ids: seq<Id>)
    requires Sorted(entries)
    ensures Sorted(Without(entries, ids))
    ensures forall e :: e in Without(entries, ids) <==> e in entries && e.id !in ids
  {
    if entries != [] {
      var front, last := entries[..|entries| - 1], entries[|entries| - 1];
      WithoutRemoves(front, ids);
      assert entries == front + [last];
      forall k | 0 <= k < |Without(front, ids)|
        ensures Without(front, ids)[k].id < last.id
      {
        assert Without(front, ids)[k] in front;
      }
    }
  }

  /** Marking entries dead takes exactly those out of what is deliverable. */
  lemma {:induction false} DeadAreTakenOut(entries: seq<Entry>, ids: seq<Id>)
    ensures Deliverable(DeadLettered(entries, ids)) == Without(Deliverable(entries), ids)
  {
    if entries != [] {
      var front, last := entries[..|entries| - 1], entries[|entries| - 1];
      DeadAreTakenOut(front, ids);
      assert DeadLettered(entries, ids)[..|front|] == DeadLettered(front, ids);
      var live := Deliverable(front);
      assert (live + [last])[..|live|] == live;
    }
  }

  lemma {:induction false} WithoutAppends(entries: seq<Entry>, more: seq<Entry>, ids: seq<Id>)
    ensures Without(entries + more, ids) == Without(entries, ids) + Without(more, ids)
    decreases |more|
  {
    if more == [] {
      assert entries + more == entries;
    } else {
      WithoutAppends(entries, more[..|more| - 1], ids);
      assert (entries + more)[..|entries + more| - 1] == entries + more[..|more| - 1];
    }
  }

  lemma {:induction false} WithoutAll(entries: seq<Entry>, ids: seq<Id>)
    requires forall k :: 0 <= k < |entries| ==> entries[k].id in ids
    ensures Without(entries, ids) == []
  {
    if entries != [] {
      WithoutAll(entries[..|entries| - 1], ids);
    }
  }

  lemma {:induction false} WithoutNone(entries: seq<Entry>, ids: seq<Id>)
    requires forall k :: 0 <= k < |entries| ==> entries[k].id !in ids
    ensures Without(entries, ids) == entries
  {
    if entries != [] {
      WithoutNone(entries[..|entries| - 1], ids);
    }
  }

  lemma WithoutHead(entries: seq<Entry>, n: nat)
    requires Sorted(entries) && n <= |entries|
    ensures Without(entries, Ids(entries[..n])) == entries[n..]
  {
    var ids := Ids(entries[..n]);
    assert entries == entries[..n] + entries[n..];
    WithoutAppends(entries[..n], entries[n..], ids);
    forall k | 0 <= k < n
      ensures entries[k].id in ids
    {
      assert ids[k] == entries[k].id;
    }
    WithoutAll(entries[..n], ids);
    WithoutNone(entries[n..], ids);
  }

  // ---- The queue as the runner holds it ----

  class MemorySpool {
    var entries: seq<Entry>
    const maxEntries: nat

    constructor (maxEntries: nat)
      ensures entries == [] && this.maxEntries == maxEntries
    {
      entries := [];
      this.maxEntries := maxEntries;
    }

    /** False is the source's capacity error. */
    method Enqueue(entry: Entry) returns (ok: bool)
      modifies this
      ensures ok == (|old(entries)| < maxEntries)
      ensures entries == if ok then old(entries) + [entry] else old(entries)
    {
      if |entries| >= maxEntries {
        return false;
      }
      entries := entries + [entry];
      return true;
    }

    method Ack(ids: seq<Id>)
      modifies this
      ensures entries == Without(old(entries), ids)
    {
      entries := Without(entries, ids);
    }

    method DeadLetter(ids: seq<Id>)
      modifies this
      ensures entries == DeadLettered(old(entries), ids)
    {
      entries := DeadLettered(entries, ids);
    }
  }
}
