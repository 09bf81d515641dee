/** The spans agents report, and which invocation each belongs to. */
module AgentSpans {
  import opened Wrappers

  /** `startMs` is the start time once parsed. */
  datatype Span = Span(
    traceId: string, spanId: string, parentSpanId: Option<string>, operation: string,
    provider: Option<string>, requestModel: Option<string>, responseModel: Option<string>,
    agentName: Option<string>, toolName: Option<string>, toolArgsHash: Option<string>,
    inputTokens: Option<int>, outputTokens: Option<int>, startMs: int)

  predicate IsInvocation(s: Span) {
    s.operation == "invoke_agent"
  }

  /** One trace's spans under their ids. */
  type Index = map<string, Span>

  predicate IsIndex(byId: Index) {
    forall id :: id in byId ==> byId[id].spanId == id
  }

  predicate Holds(byId: Index, s: Span) {
    s.spanId in byId && byId[s.spanId] == s
  }

  function Parent(byId: Index, s: Span): Option<Span> {
    if s.parentSpanId.Some? && s.parentSpanId.value in byId then Some(byId[s.parentSpanId.value]) else None
  }

  // ---- The nearest invocation, said outright ----

  /** `n` parents up; a chain that runs into a cycle never ends. */
  function Ancestor(byId: Index, s: Span, n: nat): Option<Span> {
    if n == 0 then Some(s)
    else
      var below := Ancestor(byId, s, n - 1);
      if below.None? then None else Parent(byId, below.value)
  }

  predicate NoInvocationBelow(byId: Index, s: Span, n: nat) {
    forall m :: 0 <= m < n ==> Ancestor(byId, s, m).Some? && !IsInvocation(Ancestor(byId, s, m).value)
  }

  /** The span `n` up is an invocation, and none nearer is. */
  predicate NearestAt(byId: Index, s: Span, n: nat) {
    NoInvocationBelow(byId, s, n) && Ancestor(byId, s, n).Some? && IsInvocation(Ancestor(byId, s, n).value)
  }

  // ---- The walk ----

  /** The walk from `current` on, having passed the spans in `seen`. */
  function Walk(byId: Index, current: Option<Span>, seen: set<string>): Option<string>
    requires IsIndex(byId) && (current.Some? ==> current.value.spanId in byId)
    decreases byId.Keys - seen
  {
    if current.None? || current.value.spanId in seen then None
    else if IsInvocation(current.value) then Some(current.value.spanId)
    else Walk(byId, Parent(byId, current.value), seen + {current.value.spanId})
  }

  function Owner(byId: Index, s: Span): Option<string>
    requires IsIndex(byId) && s.spanId in byId
  {
    Walk(byId, Some(s), {})
  }

  method OwningInvocation(span: Span, byId: Index) returns (owner: Option<string>)
    requires IsIndex(byId) && span.spanId in byId
    ensures owner == Owner(byId, span)
  {
    var seen: set<string> := {};
    var current := Some(span);
    while current.Some? && current.value.spanId !in seen
      invariant current.Some? ==> current.value.spanId in byId
      invariant Walk(byId, current, seen) == Owner(byId, span)
      decreases byId.Keys - seen
    {
      if current.value.operation == "invoke_agent" {
        return Some(current.value.spanId);
      }
      seen := seen + {current.value.spanId};
      current := Parent(byId, current.value);
    }
    return None;
  }

  /** What the walk has passed after `n` steps. */
  ghost predicate Passed(byId: Index, s: Span, n: nat, seen: set<string>) {
    NoInvocationBelow(byId, s, n) &&
    forall id :: id in seen <==> exists m :: 0 <= m < n && Ancestor(byId, s, m).value.spanId == id
  }

  lemma AncestorsAreHeld(byId: Index, s: Span, n: nat)
    requires IsIndex(byId) && Holds(byId, s)
    ensures Ancestor(byId, s, n).Some? ==> Holds(byId, Ancestor(byId, s, n).value)
  {
  }

  /** Once the chain meets a span again it repeats what came before, for ever. */
  lemma {:induction false} CycleRepeats(byId: Index, s: Span, m: nat, n: nat, k: nat)
    requires m < n && NoInvocationBelow(byId, s, n) && Ancestor(byId, s, m) == Ancestor(byId, s, n)
    ensures exists i :: 0 <= i < n && Ancestor(byId, s, k) == Ancestor(byId, s, i)
    decreases k
  {
    if k >= n {
      CycleRepeats(byId, s, m, n, k - 1);
      var i :| 0 <= i < n && Ancestor(byId, s, k - 1) == Ancestor(byId, s, i);
      assert Ancestor(byId, s, k) == Ancestor(byId, s, i + 1);
      if i + 1 == n {
        assert Ancestor(byId, s, k) == Ancestor(byId, s, m);
      }
    }
  }

  lemma CycleHasNoInvocation(byId: Index, s: Span, m: nat, n: nat, k: nat)
    requires m < n && NoInvocationBelow(byId, s, n) && Ancestor(byId, s, m) == Ancestor(byId, s, n)
    ensures !NearestAt(byId, s, k)
  {
    CycleRepeats(byId, s, m, n, k);
  }

  lemma {:induction false} EndedChainHasNone(byId: Index, s: Span, n: nat, k: nat)
    requires NoInvocationBelow(byId, s, n) && Ancestor(byId, s, n).None?
    ensures !NearestAt(byId, s, k)
    decreases k
  {
  }

  lemma {:induction false} WalkFindsNearest(byId: Index, s: Span, n: nat, seen: set<string>)
    requires IsIndex(byId) && Holds(byId, s) && Passed(byId, s, n, seen)
    requires Ancestor(byId, s, n).Some? ==> Holds(byId, Ancestor(byId, s, n).value)
    ensures var owner := Walk(byId, Ancestor(byId, s, n), seen);
            if owner.Some? then exists k :: NearestAt(byId, s, k) && Ancestor(byId, s, k).value.spanId == owner.value
            else forall k :: !NearestAt(byId, s, k)
    decreases byId.Keys - seen
  {
    hide Passed;
    hide NearestAt;
    hide Ancestor;
    var current := Ancestor(byId, s, n);
    if current.None? || current.value.spanId in seen {
      ChainFoundNone(byId, s, n, seen);
    } else if IsInvocation(current.value) {
      ChainFoundOne(byId, s, n, seen);
    } else {
      AncestorsAreHeld(byId, s, n + 1);
      PassOneMore(byId, s, n, seen);
      WalkFindsNearest(byId, s, n + 1, seen + {current.value.spanId});
    }
  }

  lemma ChainFoundNone(byId: Index, s: Span, n: nat, seen: set<string>)
    requires IsIndex(byId) && Holds(byId, s) && Passed(byId, s, n, seen)
    requires Ancestor(byId, s, n).None? || Ancestor(byId, s, n).value.spanId in seen
    ensures forall k :: !NearestAt(byId, s, k)
  {
    var current := Ancestor(byId, s, n);
    if current.None? {
      forall k ensures !NearestAt(byId, s, k) { EndedChainHasNone(byId, s, n, k); }
    } else {
      var m :| 0 <= m < n && Ancestor(byId, s, m).value.spanId == current.value.spanId;
      AncestorsAreHeld(byId, s, m);
      AncestorsAreHeld(byId, s, n);
      forall k ensures !NearestAt(byId, s, k) { CycleHasNoInvocation(byId, s, m, n, k); }
    }
  }

  lemma ChainFoundOne(byId: Index, s: Span, n: nat, seen: set<string>)
    requires Passed(byId, s, n, seen) && Ancestor(byId, s, n).Some? && IsInvocation(Ancestor(byId, s, n).value)
    ensures NearestAt(byId, s, n)
  {
  }

  lemma PassOneMore(byId: Index, s: Span, n: nat, seen: set<string>)
    requires Passed(byId, s, n, seen) && Ancestor(byId, s, n).Some? && !IsInvocation(Ancestor(byId, s, n).value)
    ensures Passed(byId, s, n + 1, seen + {Ancestor(byId, s, n).value.spanId})
    ensures Ancestor(byId, s, n + 1) == Parent(byId, Ancestor(byId, s, n).value)
  {
    hide IsInvocation;
    hide Parent;
  }

  /** For a span its trace's index holds, the walk finds the nearest invocation at or above it, and
      none exactly when there is none, a parent cycle included. */
  lemma OwnerIsNearest(byId: Index, s: Span)
    requires IsIndex(byId) && Holds(byId, s)
    ensures forall id :: Owner(byId, s) == Some(id) <==>
                         exists n :: NearestAt(byId, s, n) && Ancestor(byId, s, n).value.spanId == id
    ensures Owner(byId, s).None? <==> forall n :: !NearestAt(byId, s, n)
  {
    WalkFindsNearest(byId, s, 0, {});
    forall m, n | NearestAt(byId, s, m) && NearestAt(byId, s, n)
      ensures m == n
    {
      NearestIsOne(byId, s, m, n);
    }
  }

  lemma NearestIsOne(byId: Index, s: Span, m: nat, n: nat)
    requires NearestAt(byId, s, m) && NearestAt(byId, s, n)
    ensures m == n
  {
  }
}
