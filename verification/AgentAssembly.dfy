/** Cutting spans into runs: one per invocation, one for a trace without any, and what is left over. */
module AgentAssembly {
  import opened Wrappers
  import opened AgentSpans

  const UNATTRIBUTED := "unattributed"

  datatype Run = Run(traceId: string, spanId: Option<string>, agent: string, spans: seq<Span>)

  datatype Assembly = Assembly(runs: seq<Run>, loose: seq<Span>)

  // ---- Start order ----

  predicate Before(s: string, t: string) {
    t != "" && (s == "" || s[0] < t[0] || (s[0] == t[0] && Before(s[1..], t[1..])))
  }

  predicate StartsAfter(a: Span, b: Span) {
    b.startMs < a.startMs || (a.startMs == b.startMs && Before(b.spanId, a.spanId))
  }

  function Inserted(after: (Span, Span) -> bool, spans: seq<Span>, s: Span): seq<Span> {
    if spans != [] && after(spans[|spans| - 1], s) then Inserted(after, spans[..|spans| - 1], s) + [spans[|spans| - 1]]
    else spans + [s]
  }

  /** A stable sort: what neither comes after the other stays in the order it came. */
  function SortedBy(after: (Span, Span) -> bool, spans: seq<Span>): seq<Span> {
    if spans == [] then [] else Inserted(after, SortedBy(after, spans[..|spans| - 1]), spans[|spans| - 1])
  }

  /** By start time, then span id. */
  function Timed(spans: seq<Span>): seq<Span> {
    SortedBy(StartsAfter, spans)
  }

  lemma {:induction false} InsertedHolds(after: (Span, Span) -> bool, spans: seq<Span>, s: Span)
    ensures multiset(Inserted(after, spans, s)) == multiset(spans) + multiset{s}
  {
    if spans != [] && after(spans[|spans| - 1], s) {
      InsertedHolds(after, spans[..|spans| - 1], s);
      assert spans == spans[..|spans| - 1] + [spans[|spans| - 1]];
    }
  }

  lemma SortedOneMore(after: (Span, Span) -> bool, spans: seq<Span>, s: Span)
    ensures SortedBy(after, spans + [s]) == Inserted(after, SortedBy(after, spans), s)
  {
    hide Inserted;
    assert (spans + [s])[..|spans|] == spans;
  }

  lemma {:induction false} SortHolds(after: (Span, Span) -> bool, spans: seq<Span>)
    ensures multiset(SortedBy(after, spans)) == multiset(spans)
  {
    if spans != [] {
      hide *;
      var front, last := spans[..|spans| - 1], spans[|spans| - 1];
      assert spans == front + [last];
      SortHolds(after, front);
      InsertedHolds(after, SortedBy(after, front), last);
      SortedOneMore(after, front, last);
    }
  }

  // ---- Traces ----

  function OfTrace(spans: seq<Span>, traceId: string): seq<Span> {
    if spans == [] then []
    else if spans[|spans| - 1].traceId == traceId then OfTrace(spans[..|spans| - 1], traceId) + [spans[|spans| - 1]]
    else OfTrace(spans[..|spans| - 1], traceId)
  }

  /** The trace ids in the order they first occur. */
  function TraceIds(spans: seq<Span>): seq<string> {
    if spans == [] then []
    else
      var ids := TraceIds(spans[..|spans| - 1]);
      if spans[|spans| - 1].traceId in ids then ids else ids + [spans[|spans| - 1].traceId]
  }

  /** A map that remembers the order its keys came in. */
  datatype Traces = Traces(order: seq<string>, spans: map<string, seq<Span>>)

  lemma {:induction false} NoneOfTrace(spans: seq<Span>, traceId: string)
    requires traceId !in TraceIds(spans)
    ensures OfTrace(spans, traceId) == []
  {
    if spans != [] {
      NoneOfTrace(spans[..|spans| - 1], traceId);
    }
  }

  method GroupByTrace(spans: seq<Span>) returns (traces: Traces)
    ensures traces.order == TraceIds(Timed(spans))
    ensures forall id :: id in traces.order <==> id in traces.spans
    ensures forall id :: id in traces.spans ==> traces.spans[id] == OfTrace(Timed(spans), id)
  {
    var sorted := Timed(spans);
    var order: seq<string> := [];
    var lists: map<string, seq<Span>> := map[];
    var k := 0;
    while k < |sorted|
      invariant k <= |sorted| && order == TraceIds(sorted[..k])
      invariant forall id :: id in order <==> id in lists
      invariant forall id :: id in lists ==> lists[id] == OfTrace(sorted[..k], id)
    {
      var entry := sorted[k];
      assert sorted[..k + 1][..k] == sorted[..k];
      if entry.traceId !in lists {
        NoneOfTrace(sorted[..k], entry.traceId);
        order := order + [entry.traceId];
      }
      var list := if entry.traceId in lists then lists[entry.traceId] else [];
      lists := lists[entry.traceId := list + [entry]];
      k := k + 1;
    }
    assert sorted[..k] == sorted;
    traces := Traces(order, lists);
  }

  // ---- One trace ----

  function Invocations(entries: seq<Span>): seq<Span> {
    if entries == [] then []
    else if IsInvocation(entries[|entries| - 1]) then Invocations(entries[..|entries| - 1]) + [entries[|entries| - 1]]
    else Invocations(entries[..|entries| - 1])
  }

  function FirstAgent(entries: seq<Span>): string {
    if entries == [] then UNATTRIBUTED
    else if entries[0].agentName.Some? then entries[0].agentName.value
    else FirstAgent(entries[1..])
  }

  function TraceRun(traceId: string, entries: seq<Span>): Run {
    Run(traceId, None, FirstAgent(entries), entries)
  }

  /** Every span's id is in the index. */
  predicate AllListed(byId: Index, entries: seq<Span>) {
    forall k :: 0 <= k < |entries| ==> entries[k].spanId in byId
  }

  /** A later span of an id replaces an earlier one. */
  function IndexOf(entries: seq<Span>): (byId: Index)
    ensures IsIndex(byId) && AllListed(byId, entries)
  {
    if entries == [] then map[] else IndexOf(entries[..|entries| - 1])[entries[|entries| - 1].spanId := entries[|entries| - 1]]
  }

  function OwnedBy(byId: Index, entries: seq<Span>, owner: Option<string>): seq<Span>
    requires IsIndex(byId) && AllListed(byId, entries)
  {
    if entries == [] then []
    else if Owner(byId, entries[|entries| - 1]) == owner then OwnedBy(byId, entries[..|entries| - 1], owner) + [entries[|entries| - 1]]
    else OwnedBy(byId, entries[..|entries| - 1], owner)
  }

  function RunOf(traceId: string, byId: Index, entries: seq<Span>, invocation: Span): Run
    requires IsIndex(byId) && AllListed(byId, entries)
  {
    Run(traceId, Some(invocation.spanId), invocation.agentName.GetOr(UNATTRIBUTED), OwnedBy(byId, entries, Some(invocation.spanId)))
  }

  function RunsOf(traceId: string, byId: Index, entries: seq<Span>, invocations: seq<Span>): seq<Run>
    requires IsIndex(byId) && AllListed(byId, entries)
  {
    if invocations == [] then []
    else RunsOf(traceId, byId, entries, invocations[..|invocations| - 1]) + [RunOf(traceId, byId, entries, invocations[|invocations| - 1])]
  }

  function TraceAssembly(traceId: string, entries: seq<Span>): Assembly {
    var byId := IndexOf(entries);
    if Invocations(entries) == [] then Assembly([TraceRun(traceId, entries)], [])
    else Assembly(RunsOf(traceId, byId, entries, Invocations(entries)), OwnedBy(byId, entries, None))
  }

  lemma {:induction false} InvocationsAreEntries(entries: seq<Span>)
    ensures forall i :: i in Invocations(entries) <==> i in entries && IsInvocation(i)
  {
    if entries != [] {
      InvocationsAreEntries(entries[..|entries| - 1]);
      assert entries == entries[..|entries| - 1] + [entries[|entries| - 1]];
    }
  }

  /** The spans owned so far, under their owners. */
  ghost predicate OwnedSoFar(byId: Index, entries: seq<Span>, owned: map<string, seq<Span>>)
    requires IsIndex(byId) && AllListed(byId, entries)
  {
    forall o :: (o in owned <==> OwnedBy(byId, entries, Some(o)) != []) &&
                (o in owned ==> owned[o] == OwnedBy(byId, entries, Some(o)))
  }

  lemma OwnOneMore(byId: Index, entries: seq<Span>, span: Span, owned: map<string, seq<Span>>)
    requires IsIndex(byId) && AllListed(byId, entries) && span.spanId in byId && OwnedSoFar(byId, entries, owned)
    ensures AllListed(byId, entries + [span])
    ensures var owner := Owner(byId, span);
            OwnedSoFar(byId, entries + [span],
              if owner.None? then owned
              else owned[owner.value := (if owner.value in owned then owned[owner.value] else []) + [span]])
    ensures OwnedBy(byId, entries + [span], None) ==
            OwnedBy(byId, entries, None) + if Owner(byId, span).None? then [span] else []
  {
  }

  method OwnersOf(byId: Index, entries: seq<Span>) returns (owned: map<string, seq<Span>>, loose: seq<Span>)
    requires IsIndex(byId) && AllListed(byId, entries)
    ensures OwnedSoFar(byId, entries, owned) && loose == OwnedBy(byId, entries, None)
  {
    owned, loose := map[], [];
    var k := 0;
    while k < |entries|
      invariant k <= |entries| && OwnedSoFar(byId, entries[..k], owned) && loose == OwnedBy(byId, entries[..k], None)
    {
      var span := entries[k];
      OwnOneMore(byId, entries[..k], span, owned);
      assert entries[..k + 1] == entries[..k] + [span];
      var owner := OwningInvocation(span, byId);
      if owner.None? {
        loose := loose + [span];
      } else {
        owned := owned[owner.value := (if owner.value in owned then owned[owner.value] else []) + [span]];
      }
      k := k + 1;
    }
    assert entries[..k] == entries;
  }

  /** An invocation owns itself, so every invocation has a run. */
  lemma {:induction false} InvocationOwnsItself(byId: Index, entries: seq<Span>, invocation: Span)
    requires IsIndex(byId) && AllListed(byId, entries) && invocation in Invocations(entries)
    ensures invocation in OwnedBy(byId, entries, Some(invocation.spanId))
  {
    var front, last := entries[..|entries| - 1], entries[|entries| - 1];
    InvocationsAreEntries(entries);
    if invocation in Invocations(front) {
      InvocationOwnsItself(byId, front, invocation);
    } else {
      assert invocation == last;
    }
  }

  method AssembleTrace(traceId: string, entries: seq<Span>) returns (runs: seq<Run>, loose: seq<Span>)
    ensures Assembly(runs, loose) == TraceAssembly(traceId, entries)
  {
    var invocations := Invocations(entries);
    if |invocations| == 0 {
      return [TraceRun(traceId, entries)], [];
    }
    var byId := IndexOf(entries);
    var owned;
    owned, loose := OwnersOf(byId, entries);
    runs := [];
    var k := 0;
    while k < |invocations|
      invariant k <= |invocations| && runs == RunsOf(traceId, byId, entries, invocations[..k])
    {
      var span := invocations[k];
      InvocationOwnsItself(byId, entries, span);
      assert invocations[..k + 1][..k] == invocations[..k];
      runs := runs + [Run(traceId, Some(span.spanId), span.agentName.GetOr(UNATTRIBUTED), owned[span.spanId])];
      k := k + 1;
    }
    assert invocations[..k] == invocations;
  }

  function Assembled(sorted: seq<Span>, ids: seq<string>): Assembly {
    if ids == [] then Assembly([], [])
    else
      var before := Assembled(sorted, ids[..|ids| - 1]);
      var trace := TraceAssembly(ids[|ids| - 1], OfTrace(sorted, ids[|ids| - 1]));
      Assembly(before.runs + trace.runs, before.loose + trace.loose)
  }

  function AssemblyOf(spans: seq<Span>): Assembly {
    Assembled(Timed(spans), TraceIds(Timed(spans)))
  }

  lemma AssembledStep(sorted: seq<Span>, ids: seq<string>, k: nat)
    requires k < |ids|
    ensures var before, trace := Assembled(sorted, ids[..k]), TraceAssembly(ids[k], OfTrace(sorted, ids[k]));
            Assembled(sorted, ids[..k + 1]) == Assembly(before.runs + trace.runs, before.loose + trace.loose)
  {
    assert ids[..k + 1][..k] == ids[..k];
  }

  method Assemble(spans: seq<Span>) returns (assembly: Assembly)
    ensures assembly == AssemblyOf(spans)
  {
    ghost var sorted := Timed(spans);
    var traces := GroupByTrace(spans);
    var runs: seq<Run>, loose: seq<Span> := [], [];
    var k := 0;
    while k < |traces.order|
      invariant k <= |traces.order|
      invariant Assembly(runs, loose) == Assembled(sorted, traces.order[..k])
    {
      var id := traces.order[k];
      AssembledStep(sorted, traces.order, k);
      var traceRuns, traceLoose := AssembleTrace(id, traces.spans[id]);
      runs, loose := runs + traceRuns, loose + traceLoose;
      k := k + 1;
    }
    assert traces.order[..k] == traces.order;
    assembly := Assembly(runs, loose);
  }
}
