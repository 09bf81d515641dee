/** What the in-memory realtime bus holds, against the unbounded log of everything it published. */
module RealtimeBus {
  import opened Wrappers
  import opened Decimal

  type Id = nat

  datatype Input = Input(eventType: string, runId: Option<string>, workspaceId: Option<string>, occurredAt: string, dataLength: nat)

  datatype Envelope = Envelope(cursor: nat, input: Input)

  function Length(s: Option<string>): nat {
    if s.Some? then |s.value| else 0
  }

  /** `dataLength` is the length of the event's data as JSON, 0 when it does not serialise. */
  function EnvelopeBytes(e: Envelope): (n: nat)
    ensures n >= 64
  {
    64 + |Print(e.cursor)| + |e.input.eventType| + |e.input.occurredAt| + Length(e.input.runId) + Length(e.input.workspaceId) +
    e.input.dataLength
  }

  /** An envelope's size is a fixed part and its cursor's digits, and grows by one with each character
      of each text in it and of its data. */
  lemma SizeFollowsEnvelope(cursor: nat, input: Input)
    ensures var empty := Input("", None, None, "", 0);
            EnvelopeBytes(Envelope(cursor, empty)) == 64 + |Print(cursor)| &&
            EnvelopeBytes(Envelope(cursor, input)) - EnvelopeBytes(Envelope(cursor, empty)) ==
            |input.eventType| + |input.occurredAt| + (if input.runId.Some? then |input.runId.value| else 0) +
            (if input.workspaceId.Some? then |input.workspaceId.value| else 0) + input.dataLength
  {
  }

  function Bytes(events: seq<Envelope>): nat {
    if events == [] then 0 else EnvelopeBytes(events[0]) + Bytes(events[1..])
  }

  datatype Limits = Limits(count: nat, bytes: nat)

  predicate WithinLimits(limits: Limits, events: seq<Envelope>) {
    |events| <= limits.count && Bytes(events) <= limits.bytes
  }

  /** What remains once the oldest events are dropped until both bounds hold. */
  function Evicted(limits: Limits, history: seq<Envelope>): seq<Envelope> {
    if history == [] || WithinLimits(limits, history) then history else Evicted(limits, history[1..])
  }

  /** A listener: what it asked for, when it was attached and removed, and what it was sent. */
  datatype Tap = Tap(requested: nat, from: nat, until: Option<nat>, inbox: seq<Envelope>)

  /** `log` is all this bus published, numbered from `start`; the rest is what the bus holds. */
  datatype Bus = Bus(limits: Limits, start: nat, log: seq<Envelope>, history: seq<Envelope>, taps: map<Id, Tap>) {
    function Cursor(): nat {
      start + |log|
    }
  }

  function Notified(tap: Tap, event: Envelope): Tap {
    if tap.until.Some? || event.cursor <= tap.requested then tap else tap.(inbox := tap.inbox + [event])
  }

  function Publish(b: Bus, input: Input): Bus {
    var event := Envelope(b.Cursor() + 1, input);
    b.(log := b.log + [event], history := Evicted(b.limits, b.history + [event]),
       taps := map id | id in b.taps :: Notified(b.taps[id], event))
  }

  function Attach(b: Bus, id: Id, requested: nat): Bus {
    if id in b.taps then b else b.(taps := b.taps[id := Tap(requested, |b.log|, None, [])])
  }

  function Detach(b: Bus, ids: set<Id>): Bus {
    b.(taps := map id | id in b.taps ::
         if id in ids && b.taps[id].until.None? then b.taps[id].(until := Some(|b.log|)) else b.taps[id])
  }

  // ---- Subscribing ----

  function After(events: seq<Envelope>, requested: nat): seq<Envelope> {
    if events == [] then []
    else if events[|events| - 1].cursor > requested then After(events[..|events| - 1], requested) + [events[|events| - 1]]
    else After(events[..|events| - 1], requested)
  }

  function Oldest(b: Bus): nat {
    if b.history == [] then b.Cursor() + 1 else b.history[0].cursor
  }

  predicate Gap(b: Bus, requested: nat) {
    requested + 1 < Oldest(b)
  }

  function Replay(b: Bus, requested: nat): seq<Envelope> {
    if Gap(b, requested) then [] else After(b.history, requested)
  }

  /** A cursor is a decimal integer in its one canonical spelling, small enough to be exact. */
  function ParseCursor(s: string): Option<nat> {
    if IsCanonical(s) && Value(s) <= MAX_SAFE_INTEGER then Some(Value(s)) else None
  }

  /** A text is accepted as a cursor exactly when it is how the bus prints that cursor. */
  lemma CursorsRoundTrip(s: string, n: nat)
    ensures ParseCursor(s) == Some(n) <==> s == Print(n) && n <= MAX_SAFE_INTEGER
  {
    ValueOfPrint(n);
    if ParseCursor(s).Some? {
      PrintOfValue(s);
    }
  }

  // ---- The invariant ----

  predicate Numbered(b: Bus) {
    forall k :: 0 <= k < |b.log| ==> b.log[k].cursor == b.start + 1 + k
  }

  function Suffix(events: seq<Envelope>, n: nat): seq<Envelope>
    requires n <= |events|
  {
    events[|events| - n..]
  }

  /** The history is the longest end of the log that meets both bounds. */
  ghost predicate LongestSuffix(b: Bus) {
    |b.history| <= |b.log| && b.history == Suffix(b.log, |b.history|) &&
    forall n: nat :: n <= |b.log| ==> (WithinLimits(b.limits, Suffix(b.log, n)) <==> n <= |b.history|)
  }

  function End(b: Bus, tap: Tap): nat {
    if tap.until.Some? then tap.until.value else |b.log|
  }

  /** A listener was sent what was published while it was attached, past the cursor it asked for. */
  predicate TapSound(b: Bus, tap: Tap) {
    tap.from <= End(b, tap) <= |b.log| && tap.inbox == After(b.log[tap.from..End(b, tap)], tap.requested)
  }

  ghost predicate Inv(b: Bus) {
    Numbered(b) && LongestSuffix(b) && forall id :: id in b.taps ==> TapSound(b, b.taps[id])
  }

  lemma {:induction false} BytesAppend(events: seq<Envelope>, event: Envelope)
    ensures Bytes(events + [event]) == Bytes(events) + EnvelopeBytes(event)
  {
    if events == [] {
      assert events + [event] == [event];
    } else {
      BytesAppend(events[1..], event);
      assert (events + [event])[1..] == events[1..] + [event];
    }
  }

  lemma SuffixOfRest(events: seq<Envelope>, n: nat)
    requires events != [] && n <= |events|
    ensures Suffix(events, n) == if n < |events| then Suffix(events[1..], n) else events
  {
  }

  lemma {:induction false} EvictedIsLongest(limits: Limits, history: seq<Envelope>)
    ensures |Evicted(limits, history)| <= |history| && Evicted(limits, history) == Suffix(history, |Evicted(limits, history)|)
    ensures forall n: nat :: n <= |history| ==> (WithinLimits(limits, Suffix(history, n)) <==> n <= |Evicted(limits, history)|)
  {
    if history != [] && !WithinLimits(limits, history) {
      EvictedIsLongest(limits, history[1..]);
      var kept := Evicted(limits, history[1..]);
      forall n: nat | n <= |history|
        ensures WithinLimits(limits, Suffix(history, n)) <==> n <= |kept|
      {
        SuffixOfRest(history, n);
      }
      SuffixOfRest(history, |kept|);
    } else {
      forall n: nat | n <= |history|
        ensures WithinLimits(limits, Suffix(history, n))
      {
        ShorterIsLighter(history, n);
      }
    }
  }

  lemma {:induction false} ShorterIsLighter(events: seq<Envelope>, n: nat)
    requires n <= |events|
    ensures Bytes(Suffix(events, n)) <= Bytes(events)
    decreases |events|
  {
    if n < |events| {
      ShorterIsLighter(events[1..], n);
      assert Suffix(events, n) == Suffix(events[1..], n);
    } else {
      assert Suffix(events, n) == events;
    }
  }

  lemma PublishKeepsLongest(b: Bus, input: Input)
    requires LongestSuffix(b)
    ensures LongestSuffix(Publish(b, input))
  {
    var event := Envelope(b.Cursor() + 1, input);
    var longer, grown := b.log + [event], b.history + [event];
    var next := Publish(b, input);
    EvictedIsLongest(b.limits, grown);
    forall n: nat | n <= |longer|
      ensures WithinLimits(b.limits, Suffix(longer, n)) <==> n <= |next.history|
    {
      SuffixGrows(b, event, n);
    }
    SuffixGrows(b, event, |next.history|);
  }

  lemma SuffixGrows(b: Bus, event: Envelope, n: nat)
    requires LongestSuffix(b) && n <= |b.log| + 1
    ensures n <= |b.history| + 1 ==> Suffix(b.log + [event], n) == Suffix(b.history + [event], n)
    ensures n > |b.history| + 1 ==> !WithinLimits(b.limits, Suffix(b.log + [event], n))
  {
    if n > |b.history| + 1 {
      assert Suffix(b.log + [event], n) == Suffix(b.log, n - 1) + [event];
      BytesAppend(Suffix(b.log, n - 1), event);
      assert !WithinLimits(b.limits, Suffix(b.log, n - 1));
    }
  }

  lemma PublishKeepsTap(b: Bus, input: Input, id: Id)
    requires id in b.taps && TapSound(b, b.taps[id])
    ensures TapSound(Publish(b, input), Publish(b, input).taps[id])
  {
    var tap, event := b.taps[id], Envelope(b.Cursor() + 1, input);
    if tap.until.None? {
      assert b.log[tap.from..|b.log|] == b.log[tap.from..];
      assert (b.log + [event])[tap.from..|b.log| + 1] == (b.log + [event])[tap.from..];
      HearsOneMore(b.log, event, tap);
    } else {
      assert (b.log + [event])[tap.from..tap.until.value] == b.log[tap.from..tap.until.value];
    }
  }

  lemma HearsOneMore(log: seq<Envelope>, event: Envelope, tap: Tap)
    requires tap.until.None? && tap.from <= |log|
    requires tap.inbox == After(log[tap.from..], tap.requested)
    ensures Notified(tap, event).inbox == After((log + [event])[tap.from..], tap.requested)
  {
    var heard := log[tap.from..];
    assert (log + [event])[tap.from..] == heard + [event];
    assert (heard + [event])[..|heard|] == heard;
  }

  lemma PublishKeeps(b: Bus, input: Input)
    requires Inv(b)
    ensures Inv(Publish(b, input))
  {
    PublishKeepsLongest(b, input);
    forall id | id in b.taps
      ensures TapSound(Publish(b, input), Publish(b, input).taps[id])
    {
      PublishKeepsTap(b, input, id);
    }
  }

  lemma AttachKeeps(b: Bus, id: Id, requested: nat)
    requires Inv(b)
    ensures Inv(Attach(b, id, requested))
  {
  }

  lemma DetachKeeps(b: Bus, ids: set<Id>)
    requires Inv(b)
    ensures Inv(Detach(b, ids))
  {
  }

  // ---- Runs ----

  datatype Op = DoPublish(input: Input) | DoAttach(id: Id, requested: nat) | DoDetach(ids: set<Id>)

  function Apply(b: Bus, op: Op): Bus {
    match op
    case DoPublish(input) => Publish(b, input)
    case DoAttach(id, requested) => Attach(b, id, requested)
    case DoDetach(ids) => Detach(b, ids)
  }

  function Run(b: Bus, ops: seq<Op>): Bus {
    if ops == [] then b else Apply(Run(b, ops[..|ops| - 1]), ops[|ops| - 1])
  }

  function Opened(limits: Limits, start: nat): Bus {
    Bus(limits, start, [], [], map[])
  }

  lemma OpenedIsSound(limits: Limits, start: nat)
    ensures Inv(Opened(limits, start))
  {
  }

  lemma {:induction false} RunKeeps(b: Bus, ops: seq<Op>)
    requires Inv(b)
    ensures Inv(Run(b, ops))
  {
    if ops != [] {
      RunKeeps(b, ops[..|ops| - 1]);
      ApplyKeeps(Run(b, ops[..|ops| - 1]), ops[|ops| - 1]);
    }
  }

  lemma ApplyKeeps(b: Bus, op: Op)
    requires Inv(b)
    ensures Inv(Apply(b, op))
  {
    match op
    case DoPublish(input) => PublishKeeps(b, input);
    case DoAttach(id, requested) => AttachKeeps(b, id, requested);
    case DoDetach(ids) => DetachKeeps(b, ids);
  }

  /** After any run from any starting number, the history is the longest end of everything
      published that meets both the count and the byte bound, numbered without a hole. */
  lemma HistoryIsTheLongestSuffix(limits: Limits, start: nat, ops: seq<Op>, n: nat)
    requires n <= |Run(Opened(limits, start), ops).log|
    ensures var b := Run(Opened(limits, start), ops);
            Numbered(b) && |b.history| <= |b.log| && b.history == Suffix(b.log, |b.history|) &&
            (WithinLimits(b.limits, Suffix(b.log, n)) <==> n <= |b.history|)
  {
    OpenedIsSound(limits, start);
    RunKeeps(Opened(limits, start), ops);
  }

  // ---- What a subscriber can rely on ----

  predicate Retained(b: Bus, cursor: nat) {
    exists k :: 0 <= k < |b.history| && b.history[k].cursor == cursor
  }

  /** `gap` says exactly that some cursor after the requested one, up to the newest, is gone. */
  lemma GapExactlyWhen(b: Bus, requested: nat)
    requires Inv(b)
    ensures Gap(b, requested) <==> exists c: nat :: requested < c <= b.Cursor() && !Retained(b, c)
  {
    var dropped := |b.log| - |b.history|;
    assert forall k :: 0 <= k < |b.history| ==> b.history[k] == b.log[dropped + k];
    if Gap(b, requested) {
      assert !Retained(b, requested + 1);
    }
    forall c: nat | b.start + dropped < c <= b.Cursor()
      ensures Retained(b, c)
    {
      assert b.history[c - b.start - dropped - 1].cursor == c;
    }
  }

  lemma {:induction false} AfterAppends(events: seq<Envelope>, more: seq<Envelope>, requested: nat)
    ensures After(events + more, requested) == After(events, requested) + After(more, requested)
    decreases |more|
  {
    if more == [] {
      assert events + more == events;
    } else {
      AfterAppends(events, more[..|more| - 1], requested);
      assert (events + more)[..|events + more| - 1] == events + more[..|more| - 1];
    }
  }

  lemma {:induction false} NothingAfter(events: seq<Envelope>, requested: nat)
    requires forall k :: 0 <= k < |events| ==> events[k].cursor <= requested
    ensures After(events, requested) == []
  {
    if events != [] {
      NothingAfter(events[..|events| - 1], requested);
    }
  }

  /** Without a gap the replay is every event ever published after the cursor. */
  lemma ReplayIsComplete(b: Bus, requested: nat)
    requires Inv(b) && !Gap(b, requested)
    ensures Replay(b, requested) == After(b.log, requested)
  {
    var dropped := b.log[..|b.log| - |b.history|];
    assert b.log == dropped + b.history;
    AfterAppends(dropped, b.history, requested);
    assert b.history != [] ==> b.history[0] == b.log[|dropped|];
    forall k | 0 <= k < |dropped|
      ensures dropped[k].cursor <= requested
    {
      assert dropped[k] == b.log[k];
    }
    NothingAfter(dropped, requested);
  }

  lemma {:induction false} LogGrows(b: Bus, ops: seq<Op>)
    ensures b.log <= Run(b, ops).log && Run(b, ops).start == b.start
  {
    if ops != [] {
      LogGrows(b, ops[..|ops| - 1]);
    }
  }

  lemma {:induction false} TapStays(b: Bus, ops: seq<Op>, id: Id)
    requires id in b.taps
    ensures id in Run(b, ops).taps
    ensures var was, now := b.taps[id], Run(b, ops).taps[id];
            now.requested == was.requested && now.from == was.from && (was.until.Some? ==> now == was)
  {
    if ops != [] {
      TapStays(b, ops[..|ops| - 1], id);
    }
  }

  /** A subscriber that attaches its listener before the next publish is given, by replay and then
      live, exactly the events published after its cursor, in order and once each, until it is
      removed; here `ops` is anything that happens after it attached. */
  lemma ReplayThenLiveIsTheLog(b: Bus, id: Id, requested: nat, ops: seq<Op>)
    requires Inv(b) && id !in b.taps && !Gap(b, requested)
    ensures var later := Run(Attach(b, id, requested), ops);
            id in later.taps && var tap := later.taps[id];
            End(later, tap) <= |later.log| && b.log <= later.log &&
            Replay(b, requested) + tap.inbox == After(later.log[..End(later, tap)], requested)
  {
    var attached := Attach(b, id, requested);
    AttachKeeps(b, id, requested);
    RunKeeps(attached, ops);
    LogGrows(attached, ops);
    TapStays(attached, ops, id);
    ReplayIsComplete(b, requested);
    var later := Run(attached, ops);
    Joins(b.log, later.log, End(later, later.taps[id]), requested);
  }

  lemma Joins(past: seq<Envelope>, all: seq<Envelope>, end: nat, requested: nat)
    requires past <= all && |past| <= end <= |all|
    ensures After(past, requested) + After(all[|past|..end], requested) == After(all[..end], requested)
  {
    assert all[..end] == past + all[|past|..end];
    AfterAppends(past, all[|past|..end], requested);
  }

  /** With a gap the replay is empty, and live events still arrive whole from there on. */
  lemma GapLosesOnlyThePast(b: Bus, id: Id, requested: nat, ops: seq<Op>)
    requires Inv(b) && id !in b.taps && Gap(b, requested)
    ensures var later := Run(Attach(b, id, requested), ops);
            id in later.taps && var tap := later.taps[id];
            |b.log| <= End(later, tap) <= |later.log| &&
            Replay(b, requested) + tap.inbox == later.log[|b.log|..End(later, tap)]
  {
    var attached := Attach(b, id, requested);
    AttachKeeps(b, id, requested);
    RunKeeps(attached, ops);
    TapStays(attached, ops, id);
    LogGrows(attached, ops);
    var later := Run(attached, ops);
    var live := later.log[|b.log|..End(later, later.taps[id])];
    assert b.history != [] ==> b.history[0] == b.log[|b.log| - |b.history|];
    forall k | 0 <= k < |live|
      ensures live[k].cursor > requested
    {
      assert live[k] == later.log[|b.log| + k];
    }
    AllAfter(live, requested);
  }

  lemma {:induction false} AllAfter(events: seq<Envelope>, requested: nat)
    requires forall k :: 0 <= k < |events| ==> events[k].cursor > requested
    ensures After(events, requested) == events
  {
    if events != [] {
      AllAfter(events[..|events| - 1], requested);
    }
  }

  // ---- What a run does ----

  /** The inputs a run publishes, in order. */
  function Published(ops: seq<Op>): seq<Input> {
    if ops == [] then []
    else Published(ops[..|ops| - 1]) + if ops[|ops| - 1].DoPublish? then [ops[|ops| - 1].input] else []
  }

  /** A run logs each input it publishes, in order, and nothing else. */
  lemma {:induction false} RunLogsWhatItPublishes(b: Bus, ops: seq<Op>)
    ensures var r := Run(b, ops);
            b.log <= r.log && |r.log| == |b.log| + |Published(ops)| && r.limits == b.limits && r.start == b.start &&
            forall k :: 0 <= k < |Published(ops)| ==>
              r.log[|b.log| + k] == Envelope(b.start + |b.log| + k + 1, Published(ops)[k])
  {
    if ops != [] {
      RunLogsWhatItPublishes(b, ops[..|ops| - 1]);
    }
  }

  predicate Detaches(ops: seq<Op>, id: Id) {
    exists op :: op in ops && op.DoDetach? && id in op.ids
  }

  /** A listener is on the bus once something attached it, and is removed exactly when something
      detaches it. */
  lemma {:induction false} RunTapsAre(b: Bus, ops: seq<Op>, id: Id)
    ensures id in Run(b, ops).taps <==> id in b.taps || exists op :: op in ops && op.DoAttach? && op.id == id
    ensures id in b.taps && b.taps[id].until.None? ==> (Run(b, ops).taps[id].until.Some? <==> Detaches(ops, id))
  {
    if ops != [] {
      var front, last := ops[..|ops| - 1], ops[|ops| - 1];
      RunTapsAre(b, front, id);
      assert ops == front + [last];
      assert Run(b, ops).taps == Apply(Run(b, front), last).taps;
    }
  }

  /** It hears what is published up to then. */
  lemma DetachedAt(b: Bus, before: seq<Op>, ids: set<Id>, after: seq<Op>, id: Id)
    requires id in b.taps && b.taps[id].until.None? && !Detaches(before, id) && id in ids
    ensures id in Run(b, before + [DoDetach(ids)] + after).taps
    ensures Run(b, before + [DoDetach(ids)] + after).taps[id].until == Some(|Run(b, before).log|)
  {
    RunTapsAre(b, before, id);
    RunAppends(b, before, [DoDetach(ids)]);
    RunAppends(b, before + [DoDetach(ids)], after);
    assert [DoDetach(ids)][..0] == [];
    assert Run(Run(b, before), [DoDetach(ids)]) == Detach(Run(b, before), ids);
    TapStays(Detach(Run(b, before), ids), after, id);
  }

  lemma {:induction false} RunAppends(b: Bus, first: seq<Op>, second: seq<Op>)
    ensures Run(b, first + second) == Run(Run(b, first), second)
    decreases |second|
  {
    if second == [] {
      assert first + second == first;
    } else {
      RunAppends(b, first, second[..|second| - 1]);
      assert (first + second)[..|first + second| - 1] == first + second[..|second| - 1];
    }
  }
}
