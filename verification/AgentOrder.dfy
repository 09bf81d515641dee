/** The order spans are put in, and that what is made of them does not depend on the order they
    came in. */
module AgentOrder {
  import opened Wrappers
  import opened AgentSpans
  import opened AgentAssembly
  import opened AgentUsage
  import opened AgentLoops

  // ---- Text order ----

  /** The texts are the same up to `n`, and there the first ends or has the smaller character. */
  predicate SmallerAt(s: string, t: string, n: nat) {
    n <= |s| && n < |t| && s[..n] == t[..n] && (n == |s| || s[n] < t[n])
  }

  ghost predicate Smaller(s: string, t: string) {
    exists n: nat :: SmallerAt(s, t, n)
  }

  lemma SameHead(s: string, t: string, n: nat)
    requires SmallerAt(s, t, n)
    ensures n > 0 ==> s != "" && t != "" && s[0] == t[0]
  {
    if n > 0 {
      assert s[..n][0] == s[0] && t[..n][0] == t[0];
    }
  }

  lemma {:induction false} BeforeIsSmaller(s: string, t: string)
    ensures Before(s, t) <==> Smaller(s, t)
  {
    if t == "" || s == "" || s[0] != t[0] {
      if t != "" && (s == "" || s[0] < t[0]) {
        assert SmallerAt(s, t, 0);
      }
      forall n: nat | SmallerAt(s, t, n)
        ensures n == 0
      {
        SameHead(s, t, n);
      }
    } else {
      BeforeIsSmaller(s[1..], t[1..]);
      forall n: nat
        ensures SmallerAt(s, t, n + 1) <==> SmallerAt(s[1..], t[1..], n)
      {
        if n < |s| && n < |t| {
          assert s[..n + 1] == [s[0]] + s[1..][..n] && t[..n + 1] == [t[0]] + t[1..][..n];
          assert s[..n + 1][1..] == s[1..][..n] && t[..n + 1][1..] == t[1..][..n];
        }
      }
      if n: nat :| SmallerAt(s, t, n) {
        assert n != 0;
        assert SmallerAt(s[1..], t[1..], n - 1);
      }
    }
  }

  // ---- Sorting by any order ----

  /** Whatever is not after another comes before it or level with it, and so on along a chain. */
  ghost predicate IsOrder(after: (Span, Span) -> bool) {
    (forall a, b :: after(a, b) ==> !after(b, a)) && forall a, b, c :: !after(a, b) && !after(b, c) ==> !after(a, c)
  }

  ghost predicate SortedFor(after: (Span, Span) -> bool, spans: seq<Span>) {
    forall i, j :: 0 <= i < j < |spans| ==> !after(spans[i], spans[j])
  }

  lemma SortedForOneMore(after: (Span, Span) -> bool, spans: seq<Span>, s: Span)
    ensures SortedFor(after, spans + [s]) <==> SortedFor(after, spans) && forall x :: x in spans ==> !after(x, s)
  {
    var longer := spans + [s];
    assert forall i :: 0 <= i < |spans| ==> longer[i] == spans[i];
    if SortedFor(after, longer) {
      forall x | x in spans ensures !after(x, s) {
        var i :| 0 <= i < |spans| && spans[i] == x;
        assert !after(longer[i], longer[|spans|]);
      }
      assert forall i, j :: 0 <= i < j < |spans| ==> !after(longer[i], longer[j]);
    }
  }

  lemma {:induction false} InsertedIsSorted(after: (Span, Span) -> bool, spans: seq<Span>, s: Span)
    requires IsOrder(after) && SortedFor(after, spans)
    ensures SortedFor(after, Inserted(after, spans, s))
    ensures forall x :: x in Inserted(after, spans, s) ==> x in spans || x == s
  {
    if spans == [] {
    } else {
      hide SortedFor;
      var front, last := spans[..|spans| - 1], spans[|spans| - 1];
      assert spans == front + [last];
      SortedForOneMore(after, front, last);
      if after(last, s) {
        InsertedIsSorted(after, front, s);
        SortedForOneMore(after, Inserted(after, front, s), last);
      } else {
        SortedForOneMore(after, spans, s);
      }
    }
  }

  lemma {:induction false} SortIsSorted(after: (Span, Span) -> bool, spans: seq<Span>)
    requires IsOrder(after)
    ensures SortedFor(after, SortedBy(after, spans))
  {
    if spans != [] {
      SortIsSorted(after, spans[..|spans| - 1]);
      InsertedIsSorted(after, SortedBy(after, spans[..|spans| - 1]), spans[|spans| - 1]);
    }
  }

  /** The spans level with `key`, as they stand. */
  function Level(after: (Span, Span) -> bool, spans: seq<Span>, key: Span): seq<Span> {
    if spans == [] then []
    else
      var front, last := spans[..|spans| - 1], spans[|spans| - 1];
      Level(after, front, key) + if after(last, key) || after(key, last) then [] else [last]
  }

  lemma LevelOneMore(after: (Span, Span) -> bool, spans: seq<Span>, s: Span, key: Span)
    ensures Level(after, spans + [s], key) == Level(after, spans, key) + if after(s, key) || after(key, s) then [] else [s]
  {
    assert (spans + [s])[..|spans|] == spans;
  }

  lemma {:induction false} InsertingKeepsLevel(after: (Span, Span) -> bool, spans: seq<Span>, s: Span, key: Span)
    requires IsOrder(after)
    ensures Level(after, Inserted(after, spans, s), key) == Level(after, spans + [s], key)
  {
    if spans != [] && after(spans[|spans| - 1], s) {
      var front, last := spans[..|spans| - 1], spans[|spans| - 1];
      assert spans == front + [last];
      InsertingKeepsLevel(after, front, s, key);
      LevelOneMore(after, front, s, key);
      LevelOneMore(after, Inserted(after, front, s), last, key);
      LevelOneMore(after, front, last, key);
      LevelOneMore(after, spans, s, key);
    }
  }

  /** Sorting keeps what is level in the order it came. */
  lemma {:induction false} SortKeepsLevel(after: (Span, Span) -> bool, spans: seq<Span>, key: Span)
    requires IsOrder(after)
    ensures Level(after, SortedBy(after, spans), key) == Level(after, spans, key)
  {
    if spans != [] {
      var front, last := spans[..|spans| - 1], spans[|spans| - 1];
      assert spans == front + [last];
      SortKeepsLevel(after, front, key);
      InsertingKeepsLevel(after, SortedBy(after, front), last, key);
      LevelOneMore(after, SortedBy(after, front), last, key);
      LevelOneMore(after, front, last, key);
    }
  }

  /** No two different spans of the list are level. */
  ghost predicate IsStrict(after: (Span, Span) -> bool, spans: seq<Span>) {
    forall x, y :: x in spans && y in spans && !after(x, y) && !after(y, x) ==> x == y
  }

  /** There is one way to sort a list none of whose spans are level. */
  lemma {:induction false} SortedIsUnique(after: (Span, Span) -> bool, a: seq<Span>, b: seq<Span>)
    requires multiset(a) == multiset(b) && SortedFor(after, a) && SortedFor(after, b) && IsStrict(after, a)
    ensures a == b
    decreases |a|
  {
    hide *;
    SameSize(a, b);
    if a != [] {
      var fa, la, fb, lb := a[..|a| - 1], a[|a| - 1], b[..|b| - 1], b[|b| - 1];
      assert a == fa + [la] && b == fb + [lb];
      SortedForOneMore(after, fa, la);
      SortedForOneMore(after, fb, lb);
      StrictMeans(after, a, la, lb);
      SameFronts(fa, fb, la);
      StrictPart(after, a, fa);
      SortedIsUnique(after, fa, fb);
    }
  }

  lemma SameSize(a: seq<Span>, b: seq<Span>)
    requires multiset(a) == multiset(b)
    ensures |a| == |b| && forall x :: x in a <==> x in b
  {
    assert |multiset(a)| == |a| && |multiset(b)| == |b|;
    assert forall x :: x in a <==> x in multiset(a);
  }

  lemma SameFronts(a: seq<Span>, b: seq<Span>, last: Span)
    requires multiset(a + [last]) == multiset(b + [last])
    ensures multiset(a) == multiset(b)
  {
    assert multiset(a) == multiset(a + [last]) - multiset{last};
    assert multiset(b) == multiset(b + [last]) - multiset{last};
  }

  lemma StrictMeans(after: (Span, Span) -> bool, spans: seq<Span>, x: Span, y: Span)
    requires IsStrict(after, spans) && x in spans && y in spans
    ensures !after(x, y) && !after(y, x) ==> x == y
  {
  }

  lemma StrictPart(after: (Span, Span) -> bool, spans: seq<Span>, part: seq<Span>)
    requires IsStrict(after, spans) && forall x :: x in part ==> x in spans
    ensures IsStrict(after, part)
  {
  }

  // ---- Start order ----

  /** `a` started before `b`, or together with it and its id is smaller or the same. */
  ghost predicate NotLater(a: Span, b: Span) {
    a.startMs < b.startMs || (a.startMs == b.startMs && (a.spanId == b.spanId || Smaller(a.spanId, b.spanId)))
  }

  ghost predicate InStartOrder(spans: seq<Span>) {
    forall i, j :: 0 <= i < j < |spans| ==> NotLater(spans[i], spans[j])
  }

  lemma NotLaterIs(a: Span, b: Span)
    ensures NotLater(a, b) <==> !StartsAfter(a, b)
  {
    BeforeIsSmaller(a.spanId, b.spanId);
    BeforeIsTotal(a.spanId, b.spanId);
    if Before(a.spanId, b.spanId) && Before(b.spanId, a.spanId) {
      BeforeChains(a.spanId, b.spanId, a.spanId);
    }
  }

  lemma InStartOrderIs(spans: seq<Span>)
    ensures InStartOrder(spans) <==> SortedFor(StartsAfter, spans)
  {
    hide NotLater;
    hide StartsAfter;
    forall a, b ensures NotLater(a, b) <==> !StartsAfter(a, b) {
      NotLaterIs(a, b);
    }
  }

  lemma StartsAfterIsOrder()
    ensures IsOrder(StartsAfter)
  {
    forall a, b, c
      ensures (StartsAfter(a, b) ==> !StartsAfter(b, a)) && (!StartsAfter(a, b) && !StartsAfter(b, c) ==> !StartsAfter(a, c))
    {
      StartChains(a, b, c);
    }
  }

  lemma StartChains(a: Span, b: Span, c: Span)
    ensures StartsAfter(a, b) ==> !StartsAfter(b, a)
    ensures !StartsAfter(a, b) && !StartsAfter(b, c) ==> !StartsAfter(a, c)
  {
    TextChains(a.spanId, b.spanId, c.spanId);
    hide Before;
  }

  lemma TextChains(s: string, t: string, u: string)
    ensures Before(s, t) ==> !Before(t, s)
    ensures !Before(t, s) && !Before(u, t) ==> !Before(u, s)
  {
    hide Before;
    BeforeIsTotal(s, t);
    BeforeIsTotal(t, u);
    BeforeIsTotal(s, u);
    if Before(s, t) && Before(t, s) { BeforeChains(s, t, s); }
    if Before(s, t) && Before(t, u) { BeforeChains(s, t, u); }
    if Before(u, s) && Before(s, u) { BeforeChains(u, s, u); }
    if Before(u, s) && Before(s, t) { BeforeChains(u, s, t); }
    if Before(t, u) && Before(u, s) { BeforeChains(t, u, s); }
  }

  /** The spans that started at `startMs` under `spanId`, as they stand. */
  function WithKey(spans: seq<Span>, startMs: int, spanId: string): seq<Span> {
    if spans == [] then []
    else
      var front, last := spans[..|spans| - 1], spans[|spans| - 1];
      WithKey(front, startMs, spanId) + if last.startMs == startMs && last.spanId == spanId then [last] else []
  }

  lemma {:induction false} WithKeyIsLevel(spans: seq<Span>, key: Span)
    ensures WithKey(spans, key.startMs, key.spanId) == Level(StartsAfter, spans, key)
  {
    if spans != [] {
      WithKeyIsLevel(spans[..|spans| - 1], key);
      var last := spans[|spans| - 1];
      BeforeIsTotal(last.spanId, key.spanId);
      BeforeIsTotal(key.spanId, last.spanId);
      hide Before;
    }
  }

  /** The sort puts spans in start order, keeps each of them, and leaves what started together under
      one id in the order it came. */
  lemma TimedIsInStartOrder(spans: seq<Span>, key: Span)
    ensures InStartOrder(Timed(spans)) && multiset(Timed(spans)) == multiset(spans)
    ensures WithKey(Timed(spans), key.startMs, key.spanId) == WithKey(spans, key.startMs, key.spanId)
  {
    StartsAfterIsOrder();
    SortIsSorted(StartsAfter, spans);
    SortHolds(StartsAfter, spans);
    SortKeepsLevel(StartsAfter, spans, key);
    WithKeyIsLevel(spans, key);
    WithKeyIsLevel(Timed(spans), key);
    InStartOrderIs(Timed(spans));
  }

  lemma StartOrderOneMore(spans: seq<Span>, s: Span)
    ensures InStartOrder(spans + [s]) <==> InStartOrder(spans) && forall x :: x in spans ==> NotLater(x, s)
  {
    var longer := spans + [s];
    assert forall i :: 0 <= i < |spans| ==> longer[i] == spans[i];
    if InStartOrder(longer) {
      forall x | x in spans ensures NotLater(x, s) {
        var i :| 0 <= i < |spans| && spans[i] == x;
        assert NotLater(longer[i], longer[|spans|]);
      }
      assert forall i, j :: 0 <= i < j < |spans| ==> NotLater(longer[i], longer[j]);
    }
  }

  // ---- What is picked out of a list in start order is in start order ----

  lemma {:induction false} TraceInOrder(spans: seq<Span>, traceId: string)
    requires InStartOrder(spans)
    ensures InStartOrder(OfTrace(spans, traceId)) && forall x :: x in OfTrace(spans, traceId) <==> x in spans && x.traceId == traceId
  {
    if spans != [] {
      hide InStartOrder;
      hide NotLater;
      var front, last := spans[..|spans| - 1], spans[|spans| - 1];
      assert spans == front + [last];
      StartOrderOneMore(front, last);
      TraceInOrder(front, traceId);
      StartOrderOneMore(OfTrace(front, traceId), last);
    } else {
      assert OfTrace(spans, traceId) == [];
    }
  }

  lemma {:induction false} OwnedInOrder(byId: Index, entries: seq<Span>, owner: Option<string>)
    requires IsIndex(byId) && AllListed(byId, entries) && InStartOrder(entries)
    ensures InStartOrder(OwnedBy(byId, entries, owner)) && forall x :: x in OwnedBy(byId, entries, owner) ==> x in entries
  {
    if entries != [] {
      hide InStartOrder;
      hide NotLater;
      hide Owner;
      var front, last := entries[..|entries| - 1], entries[|entries| - 1];
      assert entries == front + [last];
      StartOrderOneMore(front, last);
      OwnedInOrder(byId, front, owner);
      StartOrderOneMore(OwnedBy(byId, front, owner), last);
    } else {
      assert OwnedBy(byId, entries, owner) == [];
    }
  }

  lemma {:induction false} InvocationsInOrder(entries: seq<Span>)
    requires InStartOrder(entries)
    ensures InStartOrder(Invocations(entries)) && forall x :: x in Invocations(entries) <==> x in entries && IsInvocation(x)
  {
    if entries != [] {
      hide InStartOrder;
      hide NotLater;
      var front, last := entries[..|entries| - 1], entries[|entries| - 1];
      assert entries == front + [last];
      StartOrderOneMore(front, last);
      InvocationsInOrder(front);
      StartOrderOneMore(Invocations(front), last);
    } else {
      assert Invocations(entries) == [];
    }
  }

  // ---- The runs ----

  ghost predicate RunsInOrder(runs: seq<Run>) {
    forall k :: 0 <= k < |runs| ==> InStartOrder(runs[k].spans)
  }

  /** A trace without invocations is one run of all its spans; otherwise there is one for each
      invocation, in order, named by it and holding what it owns, and the rest is loose. */
  lemma TraceAssemblyIs(traceId: string, entries: seq<Span>)
    ensures var t, invocations := TraceAssembly(traceId, entries), Invocations(entries);
            if forall x :: x in entries ==> x.operation != "invoke_agent" then
              |t.runs| == 1 && t.loose == [] && t.runs[0].spanId == None && t.runs[0].traceId == traceId &&
              t.runs[0].agent == FirstAgent(entries) && t.runs[0].spans == entries
            else
              |t.runs| == |invocations| && t.loose == OwnedBy(IndexOf(entries), entries, None) &&
              forall k :: 0 <= k < |invocations| ==>
                t.runs[k].traceId == traceId && t.runs[k].spanId == Some(invocations[k].spanId) &&
                t.runs[k].spans == OwnedBy(IndexOf(entries), entries, Some(invocations[k].spanId)) &&
                (invocations[k].agentName.Some? ==> t.runs[k].agent == invocations[k].agentName.value) &&
                (invocations[k].agentName.None? ==> t.runs[k].agent == "unattributed")
  {
    InvocationsAreEntries(entries);
    if Invocations(entries) == [] {
      assert forall x :: x in entries ==> !(x in Invocations(entries));
    } else {
      assert Invocations(entries)[0] in entries;
      InvokedRunsAre(traceId, IndexOf(entries), entries, Invocations(entries));
    }
  }

  lemma {:induction false} InvokedRunsAre(traceId: string, byId: Index, entries: seq<Span>, invocations: seq<Span>)
    requires IsIndex(byId) && AllListed(byId, entries)
    ensures var runs := RunsOf(traceId, byId, entries, invocations);
            |runs| == |invocations| &&
            forall k :: 0 <= k < |invocations| ==>
              runs[k].traceId == traceId && runs[k].spanId == Some(invocations[k].spanId) &&
              runs[k].spans == OwnedBy(byId, entries, Some(invocations[k].spanId)) &&
              (invocations[k].agentName.Some? ==> runs[k].agent == invocations[k].agentName.value) &&
              (invocations[k].agentName.None? ==> runs[k].agent == "unattributed")
  {
    hide OwnedBy;
    if invocations != [] {
      InvokedRunsAre(traceId, byId, entries, invocations[..|invocations| - 1]);
    }
  }

  /** The agent of a trace without invocations is the first one named in start order, and
      "unattributed" when none is. */
  lemma {:induction false} FirstAgentIs(entries: seq<Span>, k: nat)
    ensures k < |entries| && entries[k].agentName.Some? && (forall m :: 0 <= m < k ==> entries[m].agentName == None) ==>
              FirstAgent(entries) == entries[k].agentName.value
    ensures (forall m :: 0 <= m < |entries| ==> entries[m].agentName == None) ==> FirstAgent(entries) == "unattributed"
    decreases |entries|
  {
    if entries != [] {
      FirstAgentIs(entries[1..], if k > 0 then k - 1 else 0);
      assert forall m :: 0 < m < |entries| ==> entries[m] == entries[1..][m - 1];
    }
  }

  lemma TraceRunsInOrder(traceId: string, entries: seq<Span>)
    requires InStartOrder(entries)
    ensures RunsInOrder(TraceAssembly(traceId, entries).runs) && InStartOrder(TraceAssembly(traceId, entries).loose)
    ensures forall k :: 0 <= k < |TraceAssembly(traceId, entries).runs| ==> TraceAssembly(traceId, entries).runs[k].traceId == traceId
    ensures forall x :: x in TraceAssembly(traceId, entries).loose ==> x in entries
  {
    TraceAssemblyIs(traceId, entries);
    OwnedInOrder(IndexOf(entries), entries, None);
    var t := TraceAssembly(traceId, entries);
    hide InStartOrder;
    hide TraceAssembly;
    hide OwnedBy;
    forall k | 0 <= k < |t.runs|
      ensures InStartOrder(t.runs[k].spans)
    {
      if t.runs[k].spanId.Some? {
        OwnedInOrder(IndexOf(entries), entries, t.runs[k].spanId);
      }
    }
    NoneInOrder();
  }

  lemma NoneInOrder()
    ensures InStartOrder([])
  {
  }

  lemma {:induction false} AssembledInOrder(sorted: seq<Span>, ids: seq<string>, traceId: string)
    requires InStartOrder(sorted) && Distinct(ids)
    ensures var a := Assembled(sorted, ids);
            RunsInOrder(a.runs) &&
            OfTrace(a.loose, traceId) ==
              if traceId in ids then TraceAssembly(traceId, OfTrace(sorted, traceId)).loose else []
  {
    if ids != [] {
      var front, id := ids[..|ids| - 1], ids[|ids| - 1];
      DistinctFront(ids);
      AssembledInOrder(sorted, front, traceId);
      TraceInOrder(sorted, id);
      TraceRunsInOrder(id, OfTrace(sorted, id));
      hide *;
      AssembledOneMore(sorted, front, id);
      RunsInOrderAppend(Assembled(sorted, front).runs, TraceAssembly(id, OfTrace(sorted, id)).runs);
      OfTraceAppends(Assembled(sorted, front).loose, TraceAssembly(id, OfTrace(sorted, id)).loose, traceId);
      OfOneTrace(TraceAssembly(id, OfTrace(sorted, id)).loose, id, traceId);
    }
  }

  lemma AssembledOneMore(sorted: seq<Span>, ids: seq<string>, id: string)
    ensures var before, trace := Assembled(sorted, ids), TraceAssembly(id, OfTrace(sorted, id));
            Assembled(sorted, ids + [id]) == Assembly(before.runs + trace.runs, before.loose + trace.loose)
  {
    hide TraceAssembly;
    hide OfTrace;
    assert (ids + [id])[..|ids|] == ids;
  }

  lemma RunsInOrderAppend(a: seq<Run>, b: seq<Run>)
    requires RunsInOrder(a) && RunsInOrder(b)
    ensures RunsInOrder(a + b)
  {
  }

  lemma {:induction false} OfTraceAppends(a: seq<Span>, b: seq<Span>, traceId: string)
    ensures OfTrace(a + b, traceId) == OfTrace(a, traceId) + OfTrace(b, traceId)
    decreases |b|
  {
    if b == [] {
      assert a + b == a;
    } else {
      OfTraceAppends(a, b[..|b| - 1], traceId);
      assert (a + b)[..|a + b| - 1] == a + b[..|b| - 1];
    }
  }

  lemma {:induction false} OfOneTrace(spans: seq<Span>, id: string, traceId: string)
    requires forall x :: x in spans ==> x.traceId == id
    ensures OfTrace(spans, traceId) == if traceId == id then spans else []
  {
    if spans != [] {
      var front, last := spans[..|spans| - 1], spans[|spans| - 1];
      assert spans == front + [last];
      OfOneTrace(front, id, traceId);
    }
  }

  /** Every run's spans are in start order, and so are the loose spans of each trace. */
  lemma AssemblyInStartOrder(spans: seq<Span>, traceId: string)
    ensures RunsInOrder(AssemblyOf(spans).runs) && InStartOrder(OfTrace(AssemblyOf(spans).loose, traceId))
    ensures InStartOrder(OfTrace(Timed(spans), traceId))
  {
    var sorted := Timed(spans);
    StartsAfterIsOrder();
    SortIsSorted(StartsAfter, spans);
    InStartOrderIs(sorted);
    hide *;
    AssemblyIs(spans);
    TraceIdsCover(sorted);
    AssembledInOrder(sorted, TraceIds(sorted), traceId);
    TraceInOrder(sorted, traceId);
    TraceRunsInOrder(traceId, OfTrace(sorted, traceId));
    NoneInOrder();
  }

  // ---- Runs and loops do not depend on the order the spans came in ----

  /** Within a trace an id names one span. */
  ghost predicate IdsNameSpans(spans: seq<Span>) {
    forall x, y :: x in spans && y in spans && x.traceId == y.traceId && x.spanId == y.spanId ==> x == y
  }

  /** Where ids name spans each trace's list is the same whatever order the spans came in. */
  lemma TraceIgnoresInputOrder(a: seq<Span>, b: seq<Span>, traceId: string)
    requires multiset(a) == multiset(b) && IdsNameSpans(a)
    ensures OfTrace(Timed(a), traceId) == OfTrace(Timed(b), traceId)
  {
    var ta, tb := OfTrace(Timed(a), traceId), OfTrace(Timed(b), traceId);
    AssemblyInStartOrder(a, traceId);
    AssemblyInStartOrder(b, traceId);
    InStartOrderIs(ta);
    InStartOrderIs(tb);
    hide *;
    TimedHolds(a);
    TimedHolds(b);
    forall x ensures multiset(ta)[x] == multiset(tb)[x] {
      OfTraceTimes(Timed(a), traceId, x);
      OfTraceTimes(Timed(b), traceId, x);
    }
    TraceIsStrict(a, traceId);
    SortedIsUnique(StartsAfter, ta, tb);
  }

  lemma TraceIsStrict(spans: seq<Span>, traceId: string)
    requires IdsNameSpans(spans)
    ensures IsStrict(StartsAfter, OfTrace(Timed(spans), traceId))
  {
    var entries := OfTrace(Timed(spans), traceId);
    hide Before;
    hide OfTrace;
    hide Timed;
    TimedHolds(spans);
    forall x | x in entries
      ensures x in spans && x.traceId == traceId
    {
      OfTraceTimes(Timed(spans), traceId, x);
      assert x in multiset(entries);
      assert x in multiset(spans);
    }
    forall x, y | x in entries && y in entries && !StartsAfter(x, y) && !StartsAfter(y, x)
      ensures x == y
    {
      BeforeIsTotal(x.spanId, y.spanId);
    }
  }

  lemma {:induction false} RunTimes(sorted: seq<Span>, ids: seq<string>, r: Run)
    requires InStartOrder(sorted) && Distinct(ids)
    ensures multiset(Assembled(sorted, ids).runs)[r] ==
            if r.traceId in ids then multiset(TraceAssembly(r.traceId, OfTrace(sorted, r.traceId)).runs)[r] else 0
  {
    if ids != [] {
      hide *;
      var front, id := ids[..|ids| - 1], ids[|ids| - 1];
      DistinctFront(ids);
      RunTimes(sorted, front, r);
      AssembledOneMore(sorted, front, id);
      TraceInOrder(sorted, id);
      TraceRunsInOrder(id, OfTrace(sorted, id));
      var runs := TraceAssembly(id, OfTrace(sorted, id)).runs;
      if r in multiset(runs) {
        assert r in runs;
      }
    }
  }

  /** So are the runs, each as often. */
  lemma RunsIgnoreInputOrder(a: seq<Span>, b: seq<Span>)
    requires multiset(a) == multiset(b) && IdsNameSpans(a)
    ensures multiset(AssemblyOf(a).runs) == multiset(AssemblyOf(b).runs)
  {
    hide *;
    TimedInOrder(a);
    TimedInOrder(b);
    TimedHolds(a);
    TimedHolds(b);
    AssemblyIs(a);
    AssemblyIs(b);
    TraceIdsCover(Timed(a));
    TraceIdsCover(Timed(b));
    forall r
      ensures multiset(AssemblyOf(a).runs)[r] == multiset(AssemblyOf(b).runs)[r]
    {
      RunTimes(Timed(a), TraceIds(Timed(a)), r);
      RunTimes(Timed(b), TraceIds(Timed(b)), r);
      TraceIgnoresInputOrder(a, b, r.traceId);
      TraceIdsSame(Timed(a), Timed(b), r.traceId);
    }
  }

  lemma TimedInOrder(spans: seq<Span>)
    ensures InStartOrder(Timed(spans))
  {
    StartsAfterIsOrder();
    SortIsSorted(StartsAfter, spans);
    InStartOrderIs(Timed(spans));
  }

  lemma {:induction false} TraceIdIsOfSome(spans: seq<Span>, traceId: string)
    ensures traceId in TraceIds(spans) <==> exists x :: x in spans && x.traceId == traceId
  {
    if spans != [] {
      TraceIdIsOfSome(spans[..|spans| - 1], traceId);
      assert spans == spans[..|spans| - 1] + [spans[|spans| - 1]];
    }
  }

  lemma TraceIdsSame(a: seq<Span>, b: seq<Span>, traceId: string)
    requires multiset(a) == multiset(b)
    ensures traceId in TraceIds(a) <==> traceId in TraceIds(b)
  {
    TraceIdIsOfSome(a, traceId);
    TraceIdIsOfSome(b, traceId);
    SameSize(a, b);
  }

  lemma {:induction false} LoopsAppend(a: seq<Run>, b: seq<Run>, threshold: int)
    ensures AllLoops(a + b, threshold) == AllLoops(a, threshold) + AllLoops(b, threshold)
    decreases |b|
  {
    hide *;
    if b == [] {
      assert a + b == a;
      NoRunNoLoop(threshold);
    } else {
      var front, last := b[..|b| - 1], b[|b| - 1];
      assert b == front + [last] && a + b == a + front + [last];
      LoopsAppend(a, front, threshold);
      AllLoopsOneMore(a + front, last, threshold);
      AllLoopsOneMore(front, last, threshold);
    }
  }

  lemma {:induction false} LoopsIgnoreRunOrder(a: seq<Run>, b: seq<Run>, threshold: int)
    requires multiset(a) == multiset(b)
    ensures multiset(AllLoops(a, threshold)) == multiset(AllLoops(b, threshold))
    decreases |a|
  {
    hide *;
    assert |multiset(a)| == |a| && |multiset(b)| == |b|;
    if a == [] {
      assert b == [];
    } else {
      var front, last := a[..|a| - 1], a[|a| - 1];
      assert a == front + [last];
      assert last in multiset(b);
      var k :| 0 <= k < |b| && b[k] == last;
      var before, rest := b[..k], b[k + 1..];
      assert b == before + [last] + rest;
      RestOfRuns(front, last, before, rest);
      LoopsIgnoreRunOrder(front, before + rest, threshold);
      AllLoopsOneMore(front, last, threshold);
      LoopsAppend(before + [last], rest, threshold);
      AllLoopsOneMore(before, last, threshold);
      LoopsAppend(before, rest, threshold);
    }
  }

  lemma RestOfRuns(front: seq<Run>, last: Run, before: seq<Run>, rest: seq<Run>)
    requires multiset(front + [last]) == multiset(before + [last] + rest)
    ensures multiset(front) == multiset(before + rest)
  {
    assert multiset(front) == multiset(front + [last]) - multiset{last};
    assert multiset(before + rest) == multiset(before + [last] + rest) - multiset{last};
  }

  /** And so are the loops that are found. */
  lemma LoopsIgnoreInputOrder(a: seq<Span>, b: seq<Span>, threshold: int)
    requires multiset(a) == multiset(b) && IdsNameSpans(a)
    ensures multiset(AllLoops(AssemblyOf(a).runs, threshold)) == multiset(AllLoops(AssemblyOf(b).runs, threshold))
  {
    RunsIgnoreInputOrder(a, b);
    LoopsIgnoreRunOrder(AssemblyOf(a).runs, AssemblyOf(b).runs, threshold);
  }

  // ---- What is reported ----

  /** A loop names the run it is in and the call it repeats. */
  lemma LoopIs(run: Run, calls: seq<Span>)
    requires calls != [] && Known(calls[0])
    ensures var l := LoopOf(run, calls);
            l.traceId == run.traceId && l.runSpanId == run.spanId && l.agent == run.agent && l.spans == calls &&
            Some(l.toolName) == calls[0].toolName && Some(l.toolArgsHash) == calls[0].toolArgsHash
  {
  }

  /** A run's calls are its spans that call a tool, in order. */
  lemma {:induction false} CallsAre(spans: seq<Span>, s: Span)
    ensures Calls(spans + [s]) == Calls(spans) + if s.operation == "execute_tool" then [s] else []
    ensures Calls([]) == []
  {
    assert (spans + [s])[..|spans|] == spans;
  }

  /** The threshold is the one asked for rounded down, at least two, and three when none is. */
  lemma LoopThresholdIs(threshold: Option<real>)
    ensures threshold == None ==> LoopThreshold(threshold) == 3
    ensures threshold.Some? && threshold.value < 3.0 ==> LoopThreshold(threshold) == 2
    ensures threshold.Some? && threshold.value >= 2.0 ==>
              LoopThreshold(threshold) as real <= threshold.value < (LoopThreshold(threshold) + 1) as real
  {
  }

  // ---- The order sums run in ----

  ghost predicate NotLaterInTrace(a: Span, b: Span) {
    Smaller(a.traceId, b.traceId) || (a.traceId == b.traceId && NotLater(a, b))
  }

  lemma TraceAfterIs(a: Span, b: Span)
    ensures NotLaterInTrace(a, b) <==> !TraceAfter(a, b)
  {
    BeforeIsSmaller(a.traceId, b.traceId);
    TextChains(a.traceId, b.traceId, a.traceId);
    BeforeIsTotal(a.traceId, b.traceId);
    NotLaterIs(a, b);
    hide Before;
    hide NotLater;
    hide StartsAfter;
  }

  lemma TraceAfterIsOrder()
    ensures IsOrder(TraceAfter)
  {
    hide StartsAfter;
    hide Before;
    forall a, b, c
      ensures (TraceAfter(a, b) ==> !TraceAfter(b, a)) && (!TraceAfter(a, b) && !TraceAfter(b, c) ==> !TraceAfter(a, c))
    {
      StartChains(a, b, c);
      TextChains(a.traceId, b.traceId, c.traceId);
      TextChains(c.traceId, b.traceId, a.traceId);
      BeforeIsTotal(a.traceId, b.traceId);
      BeforeIsTotal(b.traceId, c.traceId);
      BeforeIsTotal(a.traceId, c.traceId);
    }
  }

  /** The overall row's spans are all the assembly holds, by trace and in start order. */
  lemma AnalysedInOrder(a: Assembly)
    ensures forall i, j :: 0 <= i < j < |AnalysedSpans(a)| ==> NotLaterInTrace(AnalysedSpans(a)[i], AnalysedSpans(a)[j])
    ensures multiset(AnalysedSpans(a)) == Held(a)
  {
    AnalysedAreAll(a);
    HeldIs(a);
    TraceAfterIsOrder();
    SortIsSorted(TraceAfter, Timed(AllSpans(a.runs) + a.loose));
    hide NotLaterInTrace;
    hide TraceAfter;
    forall x, y ensures NotLaterInTrace(x, y) <==> !TraceAfter(x, y) {
      TraceAfterIs(x, y);
    }
  }
}
