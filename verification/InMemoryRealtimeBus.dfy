/** The in-memory realtime bus and the subscriptions it hands out. */
module InMemoryRealtimeBus {
  import opened Wrappers
  import opened Decimal
  import opened R = RealtimeBus

  ghost predicate Distinct(ids: seq<Id>) {
    forall i, j :: 0 <= i < j < |ids| ==> ids[i] != ids[j]
  }

  /** The live listeners, in the order they were added, are the taps nobody has removed, and every
      tap's inbox is what its listener was called with. */
  ghost predicate AreOpenTaps(order: seq<Id>, listeners: map<Id, nat>, heard: map<Id, seq<Envelope>>, taps: map<Id, Tap>, nextListener: Id) {
    Distinct(order) && (forall id :: id in order <==> id in listeners) &&
    heard.Keys == taps.Keys && listeners.Keys <= taps.Keys &&
    forall id :: id in taps ==> id < nextListener && IsTap(listeners, heard[id], taps[id], id)
  }

  predicate IsTap(listeners: map<Id, nat>, heard: seq<Envelope>, tap: Tap, id: Id) {
    heard == tap.inbox && (id in listeners <==> tap.until.None?) && (id in listeners ==> listeners[id] == tap.requested)
  }

  /** What the listeners have been called with once those of `ids` are called with `event` too. */
  function Told(heard: map<Id, seq<Envelope>>, listeners: map<Id, nat>, ids: seq<Id>, event: Envelope): map<Id, seq<Envelope>> {
    map id | id in heard :: if id in ids && id in listeners && event.cursor > listeners[id] then heard[id] + [event] else heard[id]
  }

  lemma TellOneMore(heard: map<Id, seq<Envelope>>, listeners: map<Id, nat>, ids: seq<Id>, id: Id, event: Envelope)
    requires id !in ids && id in listeners && id in heard
    ensures id in Told(heard, listeners, ids, event) && Told(heard, listeners, ids, event)[id] == heard[id]
    ensures Told(heard, listeners, ids + [id], event) ==
            if event.cursor > listeners[id] then Told(heard, listeners, ids, event)[id := heard[id] + [event]]
            else Told(heard, listeners, ids, event)
  {
  }

  lemma TellNone(heard: map<Id, seq<Envelope>>, listeners: map<Id, nat>, event: Envelope)
    ensures Told(heard, listeners, [], event) == heard
  {
  }

  lemma NewToFront(ids: seq<Id>, k: nat)
    requires Distinct(ids) && k < |ids|
    ensures ids[k] !in ids[..k] && ids[..k + 1] == ids[..k] + [ids[k]]
  {
  }

  lemma PublishIs(b: Bus, input: Input)
    ensures var event, next := Envelope(b.Cursor() + 1, input), R.Publish(b, input);
            next.limits == b.limits && next.start == b.start && next.log == b.log + [event] &&
            next.history == Evicted(b.limits, b.history + [event]) && b.Cursor() == b.start + |b.log|
  {
  }

  lemma AttachIs(b: Bus, id: Id, requested: nat)
    requires id !in b.taps
    ensures Attach(b, id, requested) == b.(taps := b.taps[id := Tap(requested, |b.log|, None, [])])
    ensures b.Cursor() == b.start + |b.log|
  {
  }

  lemma DetachIs(b: Bus, ids: set<Id>)
    ensures Detach(b, ids) == b.(taps := Detach(b, ids).taps) && b.Cursor() == b.start + |b.log|
  {
  }

  /** Telling every live listener of a published event is what the publication does to the taps. */
  lemma PublishTells(b: Bus, input: Input, order: seq<Id>, listeners: map<Id, nat>, heard: map<Id, seq<Envelope>>, nextListener: Id)
    requires AreOpenTaps(order, listeners, heard, b.taps, nextListener)
    ensures AreOpenTaps(order, listeners, Told(heard, listeners, order, Envelope(b.Cursor() + 1, input)),
                        R.Publish(b, input).taps, nextListener)
  {
    hide Notified;
    hide IsTap;
    var event := Envelope(b.Cursor() + 1, input);
    forall id | id in b.taps
      ensures IsTap(listeners, Told(heard, listeners, order, event)[id], R.Publish(b, input).taps[id], id)
    {
      TapTold(b.taps[id], listeners, heard, order, event, id);
    }
  }

  lemma TapTold(tap: Tap, listeners: map<Id, nat>, heard: map<Id, seq<Envelope>>, order: seq<Id>, event: Envelope, id: Id)
    requires id in heard && IsTap(listeners, heard[id], tap, id) && (id in order <==> id in listeners)
    ensures IsTap(listeners, Told(heard, listeners, order, event)[id], Notified(tap, event), id)
  {
  }

  /** The live listeners that are left, in order. */
  function Without(order: seq<Id>, ids: set<Id>): (left: seq<Id>)
    ensures forall id :: id in left <==> id in order && id !in ids
  {
    if order == [] then []
    else Without(order[..|order| - 1], ids) + if order[|order| - 1] in ids then [] else [order[|order| - 1]]
  }

  lemma {:induction false} WithoutIsDistinct(order: seq<Id>, ids: set<Id>)
    requires Distinct(order)
    ensures Distinct(Without(order, ids))
  {
    if order != [] {
      WithoutIsDistinct(order[..|order| - 1], ids);
      assert order[|order| - 1] !in order[..|order| - 1];
    }
  }

  lemma DetachRemoves(b: Bus, ids: set<Id>, order: seq<Id>, listeners: map<Id, nat>, heard: map<Id, seq<Envelope>>, nextListener: Id)
    requires AreOpenTaps(order, listeners, heard, b.taps, nextListener)
    ensures AreOpenTaps(Without(order, ids), listeners - ids, heard, Detach(b, ids).taps, nextListener)
  {
    WithoutIsDistinct(order, ids);
  }

  lemma AttachAdds(b: Bus, requested: nat, order: seq<Id>, listeners: map<Id, nat>, heard: map<Id, seq<Envelope>>, id: Id)
    requires AreOpenTaps(order, listeners, heard, b.taps, id)
    ensures id !in b.taps
    ensures AreOpenTaps(order + [id], listeners[id := requested], heard[id := []], Attach(b, id, requested).taps, id + 1)
  {
  }

  class InMemoryRealtimeBus {
    const limits: Limits
    var cursor: nat
    var history: seq<Envelope>
    var historyBytes: int
    /** The live listeners in the order they were added, each with the cursor its subscription
        asked for, and what every listener ever added was called with. */
    var order: seq<Id>
    var listeners: map<Id, nat>
    var heard: map<Id, seq<Envelope>>
    var nextListener: Id

    ghost const start: nat
    ghost var log: seq<Envelope>
    ghost var taps: map<Id, Tap>

    ghost function Model(): Bus
      reads this
    {
      Bus(limits, start, log, history, taps)
    }

    ghost predicate Valid()
      reads this
    {
      Inv(Model()) && cursor == Model().Cursor() && historyBytes == Bytes(history) &&
      AreOpenTaps(order, listeners, heard, taps, nextListener)
    }

    constructor (limits: Limits, initialCursor: nat)
      ensures Valid() && Model() == Opened(limits, initialCursor)
    {
      this.limits := limits;
      cursor := initialCursor;
      history := [];
      historyBytes := 0;
      order := [];
      listeners := map[];
      heard := map[];
      nextListener := 0;
      start := initialCursor;
      log := [];
      taps := map[];
    }

    /** Null is the constructor's error: a limit below one, or a negative first cursor. */
    static method Open(historyLimit: int, historyBytes: int, initialCursor: int) returns (bus: InMemoryRealtimeBus?)
      ensures bus == null <==> historyLimit < 1 || historyBytes < 1 || initialCursor < 0
      ensures bus != null ==> fresh(bus) && bus.Valid() && bus.Model() == Opened(Limits(historyLimit, historyBytes), initialCursor)
    {
      if historyLimit < 1 || historyBytes < 1 || initialCursor < 0 {
        return null;
      }
      bus := new InMemoryRealtimeBus(Limits(historyLimit, historyBytes), initialCursor);
    }

    method Publish(input: Input) returns (event: Envelope)
      requires Valid()
      modifies this
      ensures Valid() && event == Envelope(old(cursor) + 1, input)
      ensures Model() == R.Publish(old(Model()), input)
      ensures order == old(order) && listeners == old(listeners)
      ensures heard == Told(old(heard), listeners, order, event)
    {
      hide *;
      ghost var before := Model();
      ValidMeans();
      PublishKeeps(before, input);
      PublishTells(before, input, order, listeners, heard, nextListener);
      cursor := cursor + 1;
      event := Envelope(cursor, input);
      BytesAppend(history, event);
      history := history + [event];
      historyBytes := historyBytes + EnvelopeBytes(event);
      Evict();
      Notify(event);
      PublishIs(before, input);
      log, taps := R.Publish(before, input).log, R.Publish(before, input).taps;
      ModelIs(R.Publish(before, input));
      MeansValid();
    }

    /** Every listener ever added was called with exactly what the model's tap was sent. */
    lemma HeardIsSent(id: Id)
      requires Valid()
      ensures id in heard <==> id in Model().taps
      ensures id in heard ==> heard[id] == Model().taps[id].inbox
      ensures id in heard ==> (id in listeners <==> Model().taps[id].until == None)
    {
    }

    /** The fields of a valid bus, and of its model. */
    lemma ValidMeans()
      requires Valid()
      ensures Inv(Model()) && cursor == Model().Cursor() && historyBytes == Bytes(history)
      ensures Distinct(order) && (forall id :: id in order ==> id in listeners && id in heard)
      ensures AreOpenTaps(order, listeners, heard, Model().taps, nextListener)
      ensures Model() == Bus(limits, start, log, history, taps)
    {
    }

    lemma MeansValid()
      requires Inv(Model()) && cursor == Model().Cursor() && historyBytes == Bytes(history)
      requires AreOpenTaps(order, listeners, heard, Model().taps, nextListener)
      ensures Valid()
    {
    }

    lemma ModelIs(b: Bus)
      requires b == Bus(limits, start, log, history, taps)
      ensures Model() == b && b.Cursor() == start + |log|
    {
    }

    /** Call every live listener, each of which passes on what is past the cursor it asked for. */
    method Notify(event: Envelope)
      requires Distinct(order) && forall id :: id in order ==> id in listeners && id in heard
      modifies this`heard
      ensures heard == Told(old(heard), listeners, order, event)
    {
      hide *;
      ghost var before := heard;
      TellNone(before, listeners, event);
      assert order[..0] == [];
      for k := 0 to |order|
        invariant heard == Told(before, listeners, order[..k], event)
      {
        var id := order[k];
        NewToFront(order, k);
        TellOneMore(before, listeners, order[..k], id, event);
        if event.cursor > listeners[id] {
          heard := heard[id := heard[id] + [event]];
        }
      }
      assert order[..|order|] == order;
    }

    method Evict()
      requires historyBytes == Bytes(history)
      modifies this`history, this`historyBytes
      ensures history == Evicted(limits, old(history)) && historyBytes == Bytes(history)
    {
      while |history| > 0
        invariant historyBytes == Bytes(history)
        invariant Evicted(limits, history) == Evicted(limits, old(history))
        decreases |history|
      {
        var overCount := |history| > limits.count;
        var overBytes := historyBytes > limits.bytes;
        if !overCount && !overBytes {
          return;
        }
        var dropped := history[0];
        history := history[1..];
        historyBytes := historyBytes - EnvelopeBytes(dropped);
      }
    }

    method AddListener(requested: nat) returns (id: Id)
      requires Valid()
      modifies this
      ensures Valid() && id !in old(taps) && id in listeners
      ensures Model() == Attach(old(Model()), id, requested)
    {
      hide *;
      ghost var before := Model();
      ValidMeans();
      id := nextListener;
      AttachKeeps(before, id, requested);
      AttachAdds(before, requested, order, listeners, heard, id);
      AttachIs(before, id, requested);
      nextListener := nextListener + 1;
      order := order + [id];
      listeners := listeners[id := requested];
      heard := heard[id := []];
      taps := taps[id := Tap(requested, |log|, None, [])];
      ModelIs(Attach(before, id, requested));
      MeansValid();
    }

    method DeleteListeners(ids: set<Id>)
      requires Valid()
      modifies this
      ensures Valid() && listeners == old(listeners) - ids
      ensures Model() == Detach(old(Model()), ids)
    {
      hide *;
      ghost var before := Model();
      ValidMeans();
      DetachKeeps(before, ids);
      DetachRemoves(before, ids, order, listeners, heard, nextListener);
      DetachIs(before, ids);
      taps := Detach(before, ids).taps;
      order := Without(order, ids);
      listeners := listeners - ids;
      ModelIs(Detach(before, ids));
      MeansValid();
    }

    /** None is the error for a text that is not a cursor; no cursor asks for everything. */
    method Subscribe(afterCursor: Option<string>) returns (subscription: RealtimeSubscription?)
      requires Valid()
      ensures subscription == null <==> afterCursor.Some? && ParseCursor(afterCursor.value).None?
      ensures subscription != null ==>
                fresh(subscription) && subscription.bus == this && subscription.added == {} &&
                subscription.requested == RequestedBy(afterCursor) &&
                subscription.gap == Gap(Model(), subscription.requested) &&
                subscription.replay == Replay(Model(), subscription.requested) &&
                subscription.nextCursor ==
                  if subscription.replay != [] then Some(Print(subscription.replay[|subscription.replay| - 1].cursor)) else afterCursor
    {
      var requested := 0;
      if afterCursor.Some? {
        var parsed := ParseCursor(afterCursor.value);
        if parsed.None? {
          return null;
        }
        requested := parsed.value;
      }
      var oldest := if |history| > 0 then history[0].cursor else cursor + 1;
      var gap := requested + 1 < oldest;
      var replay := if gap then [] else After(history, requested);
      var nextCursor := if |replay| > 0 then Some(Print(replay[|replay| - 1].cursor)) else afterCursor;
      subscription := new RealtimeSubscription(this, requested, replay, gap, nextCursor);
    }
  }

  function RequestedBy(afterCursor: Option<string>): nat {
    if afterCursor.Some? && ParseCursor(afterCursor.value).Some? then ParseCursor(afterCursor.value).value else 0
  }

  class RealtimeSubscription {
    const bus: InMemoryRealtimeBus
    const requested: nat
    const replay: seq<Envelope>
    const gap: bool
    const nextCursor: Option<string>
    var added: set<Id>

    constructor (bus: InMemoryRealtimeBus, requested: nat, replay: seq<Envelope>, gap: bool, nextCursor: Option<string>)
      ensures this.bus == bus && this.requested == requested && this.replay == replay && this.gap == gap
      ensures this.nextCursor == nextCursor && added == {}
    {
      this.bus := bus;
      this.requested := requested;
      this.replay := replay;
      this.gap := gap;
      this.nextCursor := nextCursor;
      added := {};
    }

    method OnEvent() returns (id: Id)
      requires bus.Valid()
      modifies this, bus
      ensures bus.Valid() && id !in old(bus.taps) && added == old(added) + {id}
      ensures bus.Model() == Attach(old(bus.Model()), id, requested)
    {
      id := bus.AddListener(requested);
      added := added + {id};
    }

    method Remove(id: Id)
      requires bus.Valid()
      modifies this, bus
      ensures bus.Valid() && added == old(added) - {id}
      ensures bus.Model() == Detach(old(bus.Model()), {id})
    {
      bus.DeleteListeners({id});
      added := added - {id};
    }

    /** Removes this subscription's listeners, and no other's. */
    method Close()
      requires bus.Valid()
      modifies this, bus
      ensures bus.Valid() && added == {} && bus.listeners == old(bus.listeners) - old(added)
      ensures bus.Model() == Detach(old(bus.Model()), old(added))
    {
      bus.DeleteListeners(added);
      added := {};
    }
  }
}
