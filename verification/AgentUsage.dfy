/** Runs and loose spans partition what came in, and the agents' usage adds up to the whole. */
module AgentUsage {
  import opened Wrappers
  import opened AgentSpans
  import opened AgentAssembly

  // ---- Usage, over exact reals ----

  /** `provider` None matches any provider. */
  datatype Price = Price(provider: Option<string>, model: string, inputPerMillion: real, outputPerMillion: real)

  datatype Usage = Usage(inputTokens: int, outputTokens: int, knownUsd: real, unknownSpans: nat, pricedSpans: nat)

  const NO_USAGE := Usage(0, 0, 0.0, 0, 0)

  function Plus(a: Usage, b: Usage): Usage {
    Usage(a.inputTokens + b.inputTokens, a.outputTokens + b.outputTokens, a.knownUsd + b.knownUsd,
          a.unknownSpans + b.unknownSpans, a.pricedSpans + b.pricedSpans)
  }

  predicate Usable(p: Price, model: string) {
    p.model == model && p.inputPerMillion >= 0.0 && p.outputPerMillion >= 0.0
  }

  function FirstPrice(model: string, provider: Option<string>, prices: seq<Price>): Option<Price> {
    if prices == [] then None
    else if Usable(prices[0], model) && prices[0].provider == provider then Some(prices[0])
    else FirstPrice(model, provider, prices[1..])
  }

  /** A price for the span's own provider is preferred to one for any. */
  function PriceFor(model: string, provider: Option<string>, prices: seq<Price>): Option<Price> {
    var own := if provider.None? then None else FirstPrice(model, provider, prices);
    if own.Some? then own else FirstPrice(model, None, prices)
  }

  /** The response model is tried before the request model. */
  function CostOf(s: Span, prices: seq<Price>): Option<real> {
    var ran := if s.responseModel.None? then None else PriceFor(s.responseModel.value, s.provider, prices);
    var price :=
      if ran.Some? then ran
      else if s.requestModel.None? then None
      else PriceFor(s.requestModel.value, s.provider, prices);
    if price.None? then None
    else Some((s.inputTokens.GetOr(0) as real * price.value.inputPerMillion +
               s.outputTokens.GetOr(0) as real * price.value.outputPerMillion) / 1_000_000.0)
  }

  predicate IsBillable(s: Span) {
    s.operation != "invoke_agent" && s.operation != "invoke_workflow" && (s.inputTokens.Some? || s.outputTokens.Some?)
  }

  function UsageOfOne(s: Span, prices: seq<Price>): Usage {
    if !IsBillable(s) then NO_USAGE
    else
      var cost := CostOf(s, prices);
      Usage(s.inputTokens.GetOr(0), s.outputTokens.GetOr(0), cost.GetOr(0.0), if cost.None? then 1 else 0, if cost.None? then 0 else 1)
  }

  function Total(spans: seq<Span>, prices: seq<Price>): Usage {
    if spans == [] then NO_USAGE else Plus(Total(spans[..|spans| - 1], prices), UsageOfOne(spans[|spans| - 1], prices))
  }

  lemma TotalOfNone(prices: seq<Price>)
    ensures Total([], prices) == NO_USAGE
  {
  }

  lemma TotalOneMore(spans: seq<Span>, s: Span, prices: seq<Price>)
    ensures Total(spans + [s], prices) == Plus(Total(spans, prices), UsageOfOne(s, prices))
  {
    hide UsageOfOne;
    assert (spans + [s])[..|spans|] == spans;
  }

  lemma PlusAssociates(a: Usage, b: Usage, c: Usage)
    ensures Plus(Plus(a, b), c) == Plus(a, Plus(b, c))
  {
  }

  lemma PlusSwaps(a: Usage, b: Usage, c: Usage)
    ensures Plus(Plus(a, b), c) == Plus(Plus(a, c), b)
  {
  }

  lemma PlusNothing(a: Usage)
    ensures Plus(a, NO_USAGE) == a
  {
  }

  /** Adding one span to the counters, as the loop does. */
  method AddSpan(usage: Usage, span: Span, prices: seq<Price>) returns (next: Usage)
    ensures next == Plus(usage, UsageOfOne(span, prices))
  {
    next := usage;
    if IsBillable(span) {
      next := next.(inputTokens := next.inputTokens + span.inputTokens.GetOr(0),
                    outputTokens := next.outputTokens + span.outputTokens.GetOr(0));
      var cost := CostOf(span, prices);
      if cost.None? {
        next := next.(unknownSpans := next.unknownSpans + 1);
      } else {
        next := next.(knownUsd := next.knownUsd + cost.value, pricedSpans := next.pricedSpans + 1);
      }
    }
  }

  method UsageOf(spans: seq<Span>, prices: seq<Price>) returns (usage: Usage)
    ensures usage == Total(spans, prices)
  {
    hide *;
    usage := NO_USAGE;
    TotalOfNone(prices);
    var k := 0;
    assert spans[..k] == [];
    while k < |spans|
      invariant k <= |spans| && usage == Total(spans[..k], prices)
    {
      TotalOneMore(spans[..k], spans[k], prices);
      assert spans[..k + 1] == spans[..k] + [spans[k]];
      usage := AddSpan(usage, spans[k], prices);
      k := k + 1;
    }
    assert spans[..k] == spans;
  }

  lemma {:induction false} TotalAppends(a: seq<Span>, b: seq<Span>, prices: seq<Price>)
    ensures Total(a + b, prices) == Plus(Total(a, prices), Total(b, prices))
    decreases |b|
  {
    hide *;
    if b == [] {
      assert a + b == a;
      TotalOfNone(prices);
      PlusNothing(Total(a, prices));
    } else {
      var front, last := b[..|b| - 1], b[|b| - 1];
      assert b == front + [last] && a + b == a + front + [last];
      TotalAppends(a, front, prices);
      TotalOneMore(a + front, last, prices);
      TotalOneMore(front, last, prices);
      PlusAssociates(Total(a, prices), Total(front, prices), UsageOfOne(last, prices));
    }
  }

  /** Where a span stands in a list does not matter to the total. */
  lemma TotalMovesLast(a: seq<Span>, s: Span, b: seq<Span>, prices: seq<Price>)
    ensures Total(a + [s] + b, prices) == Total(a + b + [s], prices)
  {
    hide *;
    TotalAppends(a + [s], b, prices);
    TotalOneMore(a, s, prices);
    TotalAppends(a, b, prices);
    TotalOneMore(a + b, s, prices);
    PlusSwaps(Total(a, prices), UsageOfOne(s, prices), Total(b, prices));
  }

  lemma TakenOut(spans: seq<Span>, k: nat)
    requires k < |spans|
    ensures multiset(spans) == multiset(spans[..k] + spans[k + 1..]) + multiset{spans[k]}
  {
    assert spans == spans[..k] + [spans[k]] + spans[k + 1..];
  }

  lemma RestsMatch(a: seq<Span>, b: seq<Span>, k: nat)
    requires a != [] && k < |b| && b[k] == a[|a| - 1] && multiset(a) == multiset(b)
    ensures multiset(b[..k] + b[k + 1..]) == multiset(a[..|a| - 1])
  {
    TakenOut(b, k);
    TakenOut(a, |a| - 1);
    var front, rest, last := a[..|a| - 1], b[..k] + b[k + 1..], multiset{b[k]};
    assert a[..|a| - 1] + a[|a|..] == front;
    assert multiset(a) == multiset(front) + last && multiset(b) == multiset(rest) + last;
    assert multiset(front) == multiset(a) - last && multiset(rest) == multiset(b) - last;
  }

  /** Usage does not depend on the order of the spans. */
  lemma {:induction false} TotalIgnoresOrder(a: seq<Span>, b: seq<Span>, prices: seq<Price>)
    requires multiset(a) == multiset(b)
    ensures Total(a, prices) == Total(b, prices)
    decreases |a|
  {
    hide *;
    if a == [] {
      assert |multiset(b)| == 0;
      assert b == [];
    } else {
      var front, last := a[..|a| - 1], a[|a| - 1];
      assert a == front + [last];
      assert last in multiset(b);
      var k :| 0 <= k < |b| && b[k] == last;
      assert b == b[..k] + [last] + b[k + 1..];
      RestsMatch(a, b, k);
      TotalIgnoresOrder(front, b[..k] + b[k + 1..], prices);
      TotalMovesLast(b[..k], last, b[k + 1..], prices);
      TotalOneMore(front, last, prices);
      TotalOneMore(b[..k] + b[k + 1..], last, prices);
    }
  }

  // ---- The partition ----

  function AllSpans(runs: seq<Run>): seq<Span> {
    if runs == [] then [] else AllSpans(runs[..|runs| - 1]) + runs[|runs| - 1].spans
  }

  lemma OneRun(run: Run)
    ensures AllSpans([run]) == run.spans
  {
  }

  lemma OneMoreRunOfSpans(runs: seq<Run>, run: Run)
    ensures AllSpans(runs + [run]) == AllSpans(runs) + run.spans
  {
    assert (runs + [run])[..|runs|] == runs;
  }

  lemma NoRunNoSpan()
    ensures AllSpans([]) == []
  {
  }

  lemma {:induction false} AllSpansAppends(a: seq<Run>, b: seq<Run>)
    ensures AllSpans(a + b) == AllSpans(a) + AllSpans(b)
    decreases |b|
  {
    hide *;
    if b == [] {
      assert a + b == a;
      NoRunNoSpan();
    } else {
      var front, last := b[..|b| - 1], b[|b| - 1];
      assert b == front + [last] && a + b == a + front + [last];
      AllSpansAppends(a, front);
      OneMoreRunOfSpans(a + front, last);
      OneMoreRunOfSpans(front, last);
    }
  }

  predicate Distinct<T(==)>(xs: seq<T>) {
    forall i, j :: 0 <= i < j < |xs| ==> xs[i] != xs[j]
  }

  /** The spans of each of some owners, together. */
  function OwnedByAny(byId: Index, entries: seq<Span>, owners: seq<Option<string>>): multiset<Span>
    requires IsIndex(byId) && AllListed(byId, entries)
  {
    if owners == [] then multiset{}
    else OwnedByAny(byId, entries, owners[..|owners| - 1]) + multiset(OwnedBy(byId, entries, owners[|owners| - 1]))
  }

  /** How often a span stands in one owner's list: as often as it came in, if the owner is its. */
  lemma {:induction false} OwnedTimes(byId: Index, entries: seq<Span>, owner: Option<string>, x: Span)
    requires IsIndex(byId) && AllListed(byId, entries)
    ensures multiset(OwnedBy(byId, entries, owner))[x] ==
            if x in entries && Owner(byId, x) == owner then multiset(entries)[x] else 0
  {
    if entries != [] {
      hide Owner;
      var front, last := entries[..|entries| - 1], entries[|entries| - 1];
      assert entries == front + [last];
      OwnedTimes(byId, front, owner, x);
    }
  }

  /** And in the lists of several owners, together: that often for each time its owner is one of them. */
  lemma {:induction false} OwnedByAnyTimes(byId: Index, entries: seq<Span>, owners: seq<Option<string>>, x: Span)
    requires IsIndex(byId) && AllListed(byId, entries)
    ensures OwnedByAny(byId, entries, owners)[x] ==
            if x in entries then multiset(entries)[x] * multiset(owners)[Owner(byId, x)] else 0
  {
    if owners != [] {
      hide Owner;
      hide OwnedBy;
      var front, last := owners[..|owners| - 1], owners[|owners| - 1];
      assert owners == front + [last];
      OwnedByAnyTimes(byId, entries, front, x);
      OwnedTimes(byId, entries, last, x);
      if x in entries && Owner(byId, x) == last {
        OneMoreTime(multiset(entries)[x], multiset(front)[last]);
      }
    }
  }

  lemma OneMoreTime(n: int, m: int)
    ensures n * (m + 1) == n * m + n
  {
  }

  function Owners(invocations: seq<Span>): (os: seq<Option<string>>)
    ensures |os| == |invocations| && forall k :: 0 <= k < |os| ==> os[k] == Some(invocations[k].spanId)
  {
    seq(|invocations|, k requires 0 <= k < |invocations| => Some(invocations[k].spanId))
  }

  lemma {:induction false} RunsAreOwned(traceId: string, byId: Index, entries: seq<Span>, invocations: seq<Span>)
    requires IsIndex(byId) && AllListed(byId, entries)
    ensures multiset(AllSpans(RunsOf(traceId, byId, entries, invocations))) == OwnedByAny(byId, entries, Owners(invocations))
  {
    if invocations != [] {
      var front := invocations[..|invocations| - 1];
      RunsAreOwned(traceId, byId, entries, front);
      assert Owners(invocations)[..|front|] == Owners(front);
    }
  }

  lemma {:induction false} IndexedAreEntries(entries: seq<Span>)
    ensures forall id :: id in IndexOf(entries) ==> IndexOf(entries)[id] in entries
  {
    if entries != [] {
      IndexedAreEntries(entries[..|entries| - 1]);
      assert entries == entries[..|entries| - 1] + [entries[|entries| - 1]];
    }
  }

  lemma {:induction false} WalkEndsAtAnInvocation(byId: Index, current: Option<Span>, seen: set<string>)
    requires IsIndex(byId) && (current.Some? ==> current.value.spanId in byId)
    ensures var owner := Walk(byId, current, seen);
            owner.Some? ==>
              if current.Some? && IsInvocation(current.value) then owner.value == current.value.spanId
              else owner.value in byId && IsInvocation(byId[owner.value])
    decreases byId.Keys - seen
  {
    if current.Some? && current.value.spanId !in seen && !IsInvocation(current.value) {
      WalkEndsAtAnInvocation(byId, Parent(byId, current.value), seen + {current.value.spanId});
    }
  }

  lemma OwnerIsListed(entries: seq<Span>, s: Span)
    requires s in entries
    ensures s.spanId in IndexOf(entries)
    ensures var owner := Owner(IndexOf(entries), s); owner.Some? ==> owner in Owners(Invocations(entries))
  {
    var byId := IndexOf(entries);
    IndexedAreEntries(entries);
    InvocationsAreEntries(entries);
    WalkEndsAtAnInvocation(byId, Some(s), {});
    var owner := Owner(byId, s);
    if owner.Some? {
      var i := if IsInvocation(s) then s else byId[owner.value];
      assert i in Invocations(entries) && i.spanId == owner.value;
      var k :| 0 <= k < |Invocations(entries)| && Invocations(entries)[k] == i;
      assert Owners(Invocations(entries))[k] == owner;
    }
  }

  /** The spans of an assembly, each as often as a run or the loose list holds it. */
  function Held(a: Assembly): multiset<Span> {
    multiset(AllSpans(a.runs)) + multiset(a.loose)
  }

  /** How many invocations of one id a trace has. */
  function InvocationsNamed(spans: seq<Span>, traceId: string, id: string): nat {
    if spans == [] then 0
    else InvocationsNamed(spans[..|spans| - 1], traceId, id) + NamedOne(spans[|spans| - 1], traceId, id)
  }

  function NamedOne(s: Span, traceId: string, id: string): nat {
    if IsInvocation(s) && s.traceId == traceId && s.spanId == id then 1 else 0
  }

  lemma NamedOneMore(spans: seq<Span>, s: Span, traceId: string, id: string)
    ensures InvocationsNamed(spans + [s], traceId, id) == InvocationsNamed(spans, traceId, id) + NamedOne(s, traceId, id)
  {
    assert (spans + [s])[..|spans|] == spans;
  }

  lemma {:induction false} InsertingNames(after: (Span, Span) -> bool, spans: seq<Span>, s: Span, traceId: string, id: string)
    ensures InvocationsNamed(Inserted(after, spans, s), traceId, id) ==
            InvocationsNamed(spans, traceId, id) + NamedOne(s, traceId, id)
  {
    NamedOneMore(spans, s, traceId, id);
    if spans != [] && after(spans[|spans| - 1], s) {
      var front, last := spans[..|spans| - 1], spans[|spans| - 1];
      InsertingNames(after, front, s, traceId, id);
      NamedOneMore(Inserted(after, front, s), last, traceId, id);
    }
  }

  lemma {:induction false} SortingNames(after: (Span, Span) -> bool, spans: seq<Span>, traceId: string, id: string)
    ensures InvocationsNamed(SortedBy(after, spans), traceId, id) == InvocationsNamed(spans, traceId, id)
  {
    if spans != [] {
      SortingNames(after, spans[..|spans| - 1], traceId, id);
      InsertingNames(after, SortedBy(after, spans[..|spans| - 1]), spans[|spans| - 1], traceId, id);
    }
  }

  /** Among a trace's owners an id stands once for each of its invocations. */
  lemma {:induction false} OwnersNamed(spans: seq<Span>, traceId: string, id: string)
    ensures multiset(Owners(Invocations(OfTrace(spans, traceId))))[Some(id)] == InvocationsNamed(spans, traceId, id)
    ensures None !in Owners(Invocations(OfTrace(spans, traceId)))
  {
    if spans != [] {
      var front, last := spans[..|spans| - 1], spans[|spans| - 1];
      OwnersNamed(front, traceId, id);
      if last.traceId == traceId {
        InvocationsOneMore(OfTrace(front, traceId), last);
      }
    }
  }

  lemma InvocationsOneMore(entries: seq<Span>, s: Span)
    ensures Owners(Invocations(entries + [s])) == Owners(Invocations(entries)) + if IsInvocation(s) then [Some(s.spanId)] else []
  {
    assert (entries + [s])[..|entries|] == entries;
  }

  /** In how many runs and loose lists a span of a trace stands: as many as the trace has invocations
      with its owner's id. */
  function Copies(spans: seq<Span>, x: Span): nat
    requires x in OfTrace(spans, x.traceId)
  {
    var owner := Owner(IndexOf(OfTrace(spans, x.traceId)), x);
    if owner.None? then 1 else InvocationsNamed(spans, x.traceId, owner.value)
  }

  lemma TraceHolds(spans: seq<Span>, traceId: string, x: Span)
    requires traceId == x.traceId || x !in OfTrace(spans, traceId)
    ensures var entries := OfTrace(spans, traceId);
            Held(TraceAssembly(traceId, entries))[x] == if x in entries then multiset(entries)[x] * Copies(spans, x) else 0
  {
    hide *;
    var entries := OfTrace(spans, traceId);
    TraceIs(traceId, entries);
    if Invocations(entries) == [] {
      OneRun(TraceRun(traceId, entries));
      HeldIs(TraceAssembly(traceId, entries));
      if x in entries {
        NoInvocationNoOwner(spans, x);
      }
    } else {
      InvokedTraceHolds(spans, traceId, x);
    }
  }

  lemma HeldIs(a: Assembly)
    ensures Held(a) == multiset(AllSpans(a.runs)) + multiset(a.loose)
  {
  }

  lemma NoInvocationNoOwner(spans: seq<Span>, x: Span)
    requires x in OfTrace(spans, x.traceId) && Invocations(OfTrace(spans, x.traceId)) == []
    ensures Copies(spans, x) == 1
  {
    hide Owner;
    OwnerIsListed(OfTrace(spans, x.traceId), x);
  }

  lemma InvokedTraceHolds(spans: seq<Span>, traceId: string, x: Span)
    requires traceId == x.traceId || x !in OfTrace(spans, traceId)
    requires Invocations(OfTrace(spans, traceId)) != []
    ensures var entries := OfTrace(spans, traceId);
            Held(TraceAssembly(traceId, entries))[x] == if x in entries then multiset(entries)[x] * Copies(spans, x) else 0
  {
    hide *;
    var entries := OfTrace(spans, traceId);
    var byId, owners := IndexOf(entries), Owners(Invocations(entries));
    TraceIs(traceId, entries);
    HeldIs(TraceAssembly(traceId, entries));
    RunsAreOwned(traceId, byId, entries, Invocations(entries));
    OwnedByAnyTimes(byId, entries, owners, x);
    OwnedTimes(byId, entries, None, x);
    if x in entries {
      CopiesAre(spans, x);
    }
  }

  lemma CopiesAre(spans: seq<Span>, x: Span)
    requires x in OfTrace(spans, x.traceId)
    ensures var entries := OfTrace(spans, x.traceId);
            var owner, owners := Owner(IndexOf(entries), x), Owners(Invocations(entries));
            if owner.None? then Copies(spans, x) == 1 && multiset(owners)[owner] == 0
            else Copies(spans, x) == multiset(owners)[owner]
  {
    hide Owner;
    var owner := Owner(IndexOf(OfTrace(spans, x.traceId)), x);
    OwnersNamed(spans, x.traceId, owner.GetOr(""));
  }

  lemma TraceIs(traceId: string, entries: seq<Span>)
    ensures IsIndex(IndexOf(entries)) && AllListed(IndexOf(entries), entries)
    ensures TraceAssembly(traceId, entries) ==
            if Invocations(entries) == [] then Assembly([TraceRun(traceId, entries)], [])
            else Assembly(RunsOf(traceId, IndexOf(entries), entries, Invocations(entries)), OwnedBy(IndexOf(entries), entries, None))
    ensures TraceRun(traceId, entries).spans == entries
  {
  }

  // ---- All traces ----

  lemma {:induction false} OfTraceTimes(spans: seq<Span>, traceId: string, x: Span)
    ensures multiset(OfTrace(spans, traceId))[x] == if x.traceId == traceId then multiset(spans)[x] else 0
  {
    if spans != [] {
      OfTraceTimes(spans[..|spans| - 1], traceId, x);
      assert spans == spans[..|spans| - 1] + [spans[|spans| - 1]];
    }
  }

  lemma {:induction false} TraceIdsCover(spans: seq<Span>)
    ensures Distinct(TraceIds(spans)) && forall s :: s in spans ==> s.traceId in TraceIds(spans)
  {
    if spans != [] {
      TraceIdsCover(spans[..|spans| - 1]);
      assert spans == spans[..|spans| - 1] + [spans[|spans| - 1]];
    }
  }

  lemma {:induction false} AssembledHolds(sorted: seq<Span>, ids: seq<string>, x: Span)
    requires Distinct(ids) && x in sorted
    ensures x in OfTrace(sorted, x.traceId)
    ensures Held(Assembled(sorted, ids))[x] == if x.traceId in ids then multiset(sorted)[x] * Copies(sorted, x) else 0
  {
    hide *;
    OfTraceTimes(sorted, x.traceId, x);
    if ids == [] {
      NothingAssembled(sorted);
    } else {
      var front, id := ids[..|ids| - 1], ids[|ids| - 1];
      DistinctFront(ids);
      AssembledHolds(sorted, front, x);
      HeldOneMore(sorted, front, id);
      OfTraceTimes(sorted, id, x);
      TraceHolds(sorted, id, x);
    }
  }

  lemma NothingAssembled(sorted: seq<Span>)
    ensures Held(Assembled(sorted, [])) == multiset{}
  {
  }

  lemma HeldOneMore(sorted: seq<Span>, front: seq<string>, id: string)
    ensures Held(Assembled(sorted, front + [id])) ==
            Held(Assembled(sorted, front)) + Held(TraceAssembly(id, OfTrace(sorted, id)))
  {
    hide TraceAssembly;
    hide AllSpans;
    hide OfTrace;
    AssembledStep(sorted, front + [id], |front|);
    assert (front + [id])[..|front|] == front && (front + [id])[..|front| + 1] == front + [id];
    AllSpansAppends(Assembled(sorted, front).runs, TraceAssembly(id, OfTrace(sorted, id)).runs);
  }

  lemma {:induction false} NothingElseAssembled(sorted: seq<Span>, ids: seq<string>, x: Span)
    requires x !in sorted
    ensures x !in Held(Assembled(sorted, ids))
  {
    hide *;
    if ids == [] {
      NothingAssembled(sorted);
    } else {
      var front, id := ids[..|ids| - 1], ids[|ids| - 1];
      assert ids == front + [id];
      NothingElseAssembled(sorted, front, x);
      HeldOneMore(sorted, front, id);
      OfTraceTimes(sorted, id, x);
      TraceHolds(sorted, id, x);
    }
  }

  /** Each span that came in stands in the runs and the loose spans, together, as often as it came
      in, times the invocations of its trace that have its owner's id; no other span does. */
  lemma SpansAreHeld(spans: seq<Span>, x: Span)
    ensures x !in spans ==> x !in Held(AssemblyOf(spans))
    ensures x in spans ==> x in OfTrace(Timed(spans), x.traceId) &&
                           Held(AssemblyOf(spans))[x] == multiset(spans)[x] * Copies(Timed(spans), x)
  {
    hide *;
    var sorted := Timed(spans);
    TimedHolds(spans);
    AssemblyIs(spans);
    TraceIdsCover(sorted);
    if x in spans {
      assert x in multiset(sorted);
      AssembledHolds(sorted, TraceIds(sorted), x);
    } else {
      assert x !in multiset(sorted);
      NothingElseAssembled(sorted, TraceIds(sorted), x);
    }
  }

  lemma TimedHolds(spans: seq<Span>)
    ensures multiset(Timed(spans)) == multiset(spans)
  {
    SortHolds(StartsAfter, spans);
  }

  lemma AssemblyIs(spans: seq<Span>)
    ensures AssemblyOf(spans) == Assembled(Timed(spans), TraceIds(Timed(spans)))
  {
  }

  /** No trace has two invocations of one id. */
  ghost predicate DistinctInvocations(spans: seq<Span>) {
    forall traceId, id :: InvocationsNamed(spans, traceId, id) <= 1
  }

  lemma {:induction false} SomeInvocationNamed(spans: seq<Span>, traceId: string, id: string) returns (x: Span)
    requires InvocationsNamed(spans, traceId, id) > 0
    ensures x in spans && IsInvocation(x) && x.traceId == traceId && x.spanId == id
  {
    var front, last := spans[..|spans| - 1], spans[|spans| - 1];
    assert spans == front + [last];
    if NamedOne(last, traceId, id) == 1 {
      x := last;
    } else {
      x := SomeInvocationNamed(front, traceId, id);
    }
  }

  lemma CopiesOfInvocation(spans: seq<Span>, x: Span)
    requires x in OfTrace(Timed(spans), x.traceId) && IsInvocation(x)
    ensures Copies(Timed(spans), x) == InvocationsNamed(spans, x.traceId, x.spanId)
  {
    SortingNames(StartsAfter, spans, x.traceId, x.spanId);
  }

  /** Where no two invocations share an id, everything stands exactly once. */
  lemma OneCopyEach(spans: seq<Span>, x: Span)
    requires DistinctInvocations(spans) && x in OfTrace(Timed(spans), x.traceId)
    ensures Copies(Timed(spans), x) == 1
  {
    hide Owner;
    var entries := OfTrace(Timed(spans), x.traceId);
    var owner := Owner(IndexOf(entries), x);
    OwnerIsListed(entries, x);
    if owner.Some? {
      OwnersNamed(Timed(spans), x.traceId, owner.value);
      SortingNames(StartsAfter, spans, x.traceId, owner.value);
      assert InvocationsNamed(spans, x.traceId, owner.value) <= 1;
    }
  }

  /** Runs and loose spans are the spans that came in, each exactly once, precisely when no trace
      has two invocations of one id. */
  lemma AssemblyPartitionsExactlyWhen(spans: seq<Span>)
    ensures Held(AssemblyOf(spans)) == multiset(spans) <==> DistinctInvocations(spans)
  {
    if DistinctInvocations(spans) {
      forall x ensures Held(AssemblyOf(spans))[x] == multiset(spans)[x] {
        hide *;
        SpansAreHeld(spans, x);
        if x in spans {
          OneCopyEach(spans, x);
        }
      }
    } else {
      var traceId, id :| InvocationsNamed(spans, traceId, id) > 1;
      hide *;
      var x := SomeInvocationNamed(spans, traceId, id);
      SpansAreHeld(spans, x);
      CopiesOfInvocation(spans, x);
      ManyTimes(multiset(spans)[x], InvocationsNamed(spans, traceId, id));
    }
  }

  lemma ManyTimes(n: int, m: int)
    requires n > 0 && m > 1
    ensures n * m != n
  {
    OneMoreTime(n, m - 1);
    assert n * (m - 1) > 0;
  }

  // ---- Rows ----

  function RunsBy(runs: seq<Run>, agent: string): seq<Run> {
    if runs == [] then []
    else if runs[|runs| - 1].agent == agent then RunsBy(runs[..|runs| - 1], agent) + [runs[|runs| - 1]]
    else RunsBy(runs[..|runs| - 1], agent)
  }

  /** The spans whose usage counts for one agent's row. */
  function AgentUsageSpans(a: Assembly, agent: string): seq<Span> {
    AllSpans(RunsBy(a.runs, agent)) + if agent == UNATTRIBUTED then a.loose else []
  }

  predicate TraceAfter(a: Span, b: Span) {
    Before(b.traceId, a.traceId) || (a.traceId == b.traceId && StartsAfter(a, b))
  }

  /** The spans the overall row counts, in trace then start order. */
  function AnalysedSpans(a: Assembly): seq<Span> {
    SortedBy(TraceAfter, Timed(AllSpans(a.runs) + a.loose))
  }

  function RowsTotal(a: Assembly, agents: seq<string>, prices: seq<Price>): Usage {
    if agents == [] then NO_USAGE
    else Plus(RowsTotal(a, agents[..|agents| - 1], prices), Total(AgentUsageSpans(a, agents[|agents| - 1]), prices))
  }

  // ---- Which rows there are ----

  function Agents(runs: seq<Run>): seq<string> {
    if runs == [] then [] else Agents(runs[..|runs| - 1]) + [runs[|runs| - 1].agent]
  }

  function AgentKeys(a: Assembly): seq<string> {
    Agents(a.runs) + if a.loose != [] then [UNATTRIBUTED] else []
  }

  function FirstOccurrences(keys: seq<string>): seq<string> {
    if keys == [] then []
    else
      var before := FirstOccurrences(keys[..|keys| - 1]);
      if keys[|keys| - 1] in before then before else before + [keys[|keys| - 1]]
  }

  function Placed(keys: seq<string>, key: string): seq<string> {
    if keys != [] && Before(key, keys[|keys| - 1]) then Placed(keys[..|keys| - 1], key) + [keys[|keys| - 1]]
    else keys + [key]
  }

  function Sorted(keys: seq<string>): seq<string> {
    if keys == [] then [] else Placed(Sorted(keys[..|keys| - 1]), keys[|keys| - 1])
  }

  /** A row for each key, once, in code unit order. */
  function RowKeys(keys: seq<string>): seq<string> {
    Sorted(FirstOccurrences(keys))
  }

  predicate Increasing(keys: seq<string>) {
    forall i, j :: 0 <= i < j < |keys| ==> Before(keys[i], keys[j])
  }

  lemma {:induction false} BeforeIsTotal(s: string, t: string)
    ensures !Before(s, s)
    ensures s == t || Before(s, t) || Before(t, s)
  {
    if s != "" && t != "" && s[0] == t[0] {
      BeforeIsTotal(s[1..], t[1..]);
      assert s == [s[0]] + s[1..] && t == [t[0]] + t[1..];
    } else if s != "" {
      BeforeIsTotal(s[1..], s[1..]);
    }
  }

  lemma {:induction false} BeforeChains(s: string, t: string, u: string)
    requires Before(s, t) && Before(t, u)
    ensures Before(s, u)
  {
    if s != "" && s[0] == t[0] == u[0] {
      BeforeChains(s[1..], t[1..], u[1..]);
    }
  }

  lemma IncreasingOneMore(keys: seq<string>, last: string)
    requires Increasing(keys) && (keys != [] ==> Before(keys[|keys| - 1], last))
    ensures Increasing(keys + [last])
  {
    forall i | 0 <= i < |keys| - 1 ensures Before(keys[i], last) {
      BeforeChains(keys[i], keys[|keys| - 1], last);
    }
  }

  lemma PlacedIs(keys: seq<string>, key: string)
    ensures keys == [] || !Before(key, keys[|keys| - 1]) ==> Placed(keys, key) == keys + [key]
    ensures keys != [] && Before(key, keys[|keys| - 1]) ==>
              Placed(keys, key) == Placed(keys[..|keys| - 1], key) + [keys[|keys| - 1]]
  {
  }

  lemma FrontIncreases(keys: seq<string>)
    requires Increasing(keys) && keys != []
    ensures Increasing(keys[..|keys| - 1])
    ensures |keys| > 1 ==> Before(keys[|keys| - 2], keys[|keys| - 1])
  {
  }

  lemma NoneIncreases()
    ensures Increasing([])
  {
  }

  lemma {:induction false} PlacedInOrder(keys: seq<string>, key: string)
    requires Increasing(keys) && key !in keys
    ensures Increasing(Placed(keys, key)) && forall k :: k in Placed(keys, key) <==> k in keys || k == key
    ensures |Placed(keys, key)| == |keys| + 1
    ensures Placed(keys, key)[|keys|] == if keys != [] && Before(key, keys[|keys| - 1]) then keys[|keys| - 1] else key
  {
    hide *;
    PlacedIs(keys, key);
    if keys == [] {
      NoneIncreases();
      IncreasingOneMore([], key);
    } else {
      var front, last := keys[..|keys| - 1], keys[|keys| - 1];
      assert keys == front + [last];
      BeforeIsTotal(key, last);
      FrontIncreases(keys);
      if Before(key, last) {
        PlacedInOrder(front, key);
        IncreasingOneMore(Placed(front, key), last);
      } else {
        IncreasingOneMore(keys, key);
      }
    }
  }

  lemma {:induction false} OccurrencesAreOnce(keys: seq<string>)
    ensures Distinct(FirstOccurrences(keys)) && forall k :: k in FirstOccurrences(keys) <==> k in keys
  {
    if keys != [] {
      OccurrencesAreOnce(keys[..|keys| - 1]);
      assert keys == keys[..|keys| - 1] + [keys[|keys| - 1]];
    }
  }

  lemma {:induction false} SortedInOrder(keys: seq<string>)
    requires Distinct(keys)
    ensures Increasing(Sorted(keys)) && forall k :: k in Sorted(keys) <==> k in keys
  {
    if keys != [] {
      DistinctFront(keys);
      SortedInOrder(keys[..|keys| - 1]);
      PlacedInOrder(Sorted(keys[..|keys| - 1]), keys[|keys| - 1]);
    }
  }

  lemma IncreasingIsDistinct(keys: seq<string>)
    requires Increasing(keys)
    ensures Distinct(keys)
  {
    forall i, j | 0 <= i < j < |keys| ensures keys[i] != keys[j] {
      BeforeIsTotal(keys[i], keys[j]);
    }
  }

  lemma {:induction false} AgentsAreListed(runs: seq<Run>)
    ensures forall r :: r in runs ==> r.agent in Agents(runs)
  {
    if runs != [] {
      AgentsAreListed(runs[..|runs| - 1]);
      assert runs == runs[..|runs| - 1] + [runs[|runs| - 1]];
    }
  }

  /** The rows come in strictly increasing order, one for each key asked for, and cover every agent
      of both windows. */
  lemma RowKeysCover(a: Assembly, b: Assembly)
    ensures var asked := AgentKeys(a) + AgentKeys(b);
            Increasing(RowKeys(asked)) && (forall k :: k in RowKeys(asked) <==> k in asked) &&
            CoversAgents(a, RowKeys(asked)) && CoversAgents(b, RowKeys(asked))
  {
    var asked := AgentKeys(a) + AgentKeys(b);
    OccurrencesAreOnce(asked);
    SortedInOrder(FirstOccurrences(asked));
    IncreasingIsDistinct(RowKeys(asked));
    AgentsAreListed(a.runs);
    AgentsAreListed(b.runs);
  }

  /** One row each for at least the agents that ran, and for what no agent owns. */
  predicate CoversAgents(a: Assembly, agents: seq<string>) {
    Distinct(agents) && (forall r :: r in a.runs ==> r.agent in agents) && (a.loose != [] ==> UNATTRIBUTED in agents)
  }

  /** The spans counted by any row, together. */
  function CountedByAny(a: Assembly, agents: seq<string>): multiset<Span> {
    if agents == [] then multiset{}
    else CountedByAny(a, agents[..|agents| - 1]) + multiset(AgentUsageSpans(a, agents[|agents| - 1]))
  }

  lemma RunCounts(runs: seq<Run>, run: Run, loose: seq<Span>, agent: string)
    ensures multiset(AgentUsageSpans(Assembly(runs + [run], loose), agent)) ==
            multiset(AgentUsageSpans(Assembly(runs, loose), agent)) + if run.agent == agent then multiset(run.spans) else multiset{}
  {
  }

  lemma CountedStep(a: Assembly, agents: seq<string>, agent: string)
    ensures CountedByAny(a, agents + [agent]) == CountedByAny(a, agents) + multiset(AgentUsageSpans(a, agent))
  {
  }

  lemma DistinctFront<T>(xs: seq<T>)
    requires xs != [] && Distinct(xs)
    ensures Distinct(xs[..|xs| - 1]) && xs[|xs| - 1] !in xs[..|xs| - 1]
    ensures xs == xs[..|xs| - 1] + [xs[|xs| - 1]]
  {
  }

  lemma CountedByNobody(a: Assembly)
    ensures CountedByAny(a, []) == multiset{}
  {
  }

  lemma {:induction false} OneMoreRun(runs: seq<Run>, run: Run, loose: seq<Span>, agents: seq<string>)
    requires Distinct(agents)
    ensures CountedByAny(Assembly(runs + [run], loose), agents) ==
            CountedByAny(Assembly(runs, loose), agents) + if run.agent in agents then multiset(run.spans) else multiset{}
  {
    hide *;
    var before, after := Assembly(runs, loose), Assembly(runs + [run], loose);
    if agents == [] {
      CountedByNobody(before);
      CountedByNobody(after);
    } else {
      var front, last := agents[..|agents| - 1], agents[|agents| - 1];
      DistinctFront(agents);
      OneMoreRun(runs, run, loose, front);
      CountedStep(before, front, last);
      CountedStep(after, front, last);
      RunCounts(runs, run, loose, last);
    }
  }

  lemma LooseCounts(loose: seq<Span>, agent: string)
    ensures AgentUsageSpans(Assembly([], loose), agent) == if agent == UNATTRIBUTED then loose else []
  {
  }

  lemma {:induction false} NoRuns(loose: seq<Span>, agents: seq<string>)
    requires Distinct(agents)
    ensures CountedByAny(Assembly([], loose), agents) == if UNATTRIBUTED in agents then multiset(loose) else multiset{}
  {
    hide *;
    if agents == [] {
      CountedByNobody(Assembly([], loose));
    } else {
      DistinctFront(agents);
      NoRuns(loose, agents[..|agents| - 1]);
      CountedStep(Assembly([], loose), agents[..|agents| - 1], agents[|agents| - 1]);
      LooseCounts(loose, agents[|agents| - 1]);
    }
  }

  lemma {:induction false} CoveringRowsDivide(a: Assembly, agents: seq<string>)
    requires CoversAgents(a, agents)
    ensures CountedByAny(a, agents) == Held(a)
    decreases |a.runs|
  {
    if a.runs == [] {
      NoRuns(a.loose, agents);
    } else {
      var front, last := a.runs[..|a.runs| - 1], a.runs[|a.runs| - 1];
      assert a.runs == front + [last];
      CoveringRowsDivide(Assembly(front, a.loose), agents);
      OneMoreRun(front, last, a.loose, agents);
    }
  }

  /** Every span an assembly holds is counted by exactly one of the rows there are. */
  lemma RowsDivide(a: Assembly, b: Assembly)
    ensures CountedByAny(a, RowKeys(AgentKeys(a) + AgentKeys(b))) == Held(a)
    ensures CountedByAny(b, RowKeys(AgentKeys(a) + AgentKeys(b))) == Held(b)
  {
    hide *;
    RowKeysCover(a, b);
    CoveringRowsDivide(a, RowKeys(AgentKeys(a) + AgentKeys(b)));
    CoveringRowsDivide(b, RowKeys(AgentKeys(a) + AgentKeys(b)));
  }

  function Concatenated(a: Assembly, agents: seq<string>): seq<Span> {
    if agents == [] then [] else Concatenated(a, agents[..|agents| - 1]) + AgentUsageSpans(a, agents[|agents| - 1])
  }

  lemma {:induction false} RowsTotalIs(a: Assembly, agents: seq<string>, prices: seq<Price>)
    ensures RowsTotal(a, agents, prices) == Total(Concatenated(a, agents), prices)
    ensures multiset(Concatenated(a, agents)) == CountedByAny(a, agents)
  {
    if agents != [] {
      RowsTotalIs(a, agents[..|agents| - 1], prices);
      TotalAppends(Concatenated(a, agents[..|agents| - 1]), AgentUsageSpans(a, agents[|agents| - 1]), prices);
    }
  }

  lemma AnalysedAreAll(a: Assembly)
    ensures multiset(AnalysedSpans(a)) == multiset(AllSpans(a.runs)) + multiset(a.loose)
  {
    SortHolds(StartsAfter, AllSpans(a.runs) + a.loose);
    SortHolds(TraceAfter, Timed(AllSpans(a.runs) + a.loose));
  }

  lemma RowsAddUp(a: Assembly, agents: seq<string>, prices: seq<Price>)
    requires CoversAgents(a, agents)
    ensures RowsTotal(a, agents, prices) == Total(AnalysedSpans(a), prices)
  {
    hide *;
    AnalysedAreAll(a);
    CoveringRowsDivide(a, agents);
    HeldIs(a);
    RowsTotalIs(a, agents, prices);
    TotalIgnoresOrder(Concatenated(a, agents), AnalysedSpans(a), prices);
  }

  /** Whatever the spans and their parent links, the tokens, priced and unpriced spans and cost of the
      agent rows add up to the overall row's, for this window and the one before it; and the overall
      row is the input's total when no trace has two invocations of one id. */
  lemma AgentRowsAddUp(spans: seq<Span>, previous: seq<Span>, prices: seq<Price>)
    ensures var a, b := AssemblyOf(spans), AssemblyOf(previous);
            var agents := RowKeys(AgentKeys(a) + AgentKeys(b));
            RowsTotal(a, agents, prices) == Total(AnalysedSpans(a), prices) &&
            RowsTotal(b, agents, prices) == Total(AnalysedSpans(b), prices) &&
            (DistinctInvocations(spans) ==> Total(AnalysedSpans(a), prices) == Total(spans, prices))
  {
    hide *;
    var a, b := AssemblyOf(spans), AssemblyOf(previous);
    RowKeysCover(a, b);
    RowsAddUp(a, RowKeys(AgentKeys(a) + AgentKeys(b)), prices);
    RowsAddUp(b, RowKeys(AgentKeys(a) + AgentKeys(b)), prices);
    if DistinctInvocations(spans) {
      AssemblyPartitionsExactlyWhen(spans);
      AnalysedAreAll(a);
      HeldIs(a);
      TotalIgnoresOrder(AnalysedSpans(a), spans, prices);
    }
  }
}
