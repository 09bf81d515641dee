/** Repeated tool calls: the streak automaton against maximal groups of equal consecutive calls. */
module AgentLoops {
  import opened Wrappers
  import opened AgentSpans
  import opened AgentAssembly

  const DEFAULT_LOOP_THRESHOLD := 3

  datatype Loop = Loop(traceId: string, runSpanId: Option<string>, agent: string, toolName: string, toolArgsHash: string, spans: seq<Span>)

  /** The threshold asked for, a number that may have a fraction, is at least two. */
  function LoopThreshold(threshold: Option<real>): (t: int)
    ensures t >= 2
  {
    if threshold.None? then DEFAULT_LOOP_THRESHOLD else if threshold.value.Floor < 2 then 2 else threshold.value.Floor
  }

  predicate IsCall(s: Span) {
    s.operation == "execute_tool"
  }

  function Calls(spans: seq<Span>): seq<Span> {
    if spans == [] then []
    else if IsCall(spans[|spans| - 1]) then Calls(spans[..|spans| - 1]) + [spans[|spans| - 1]]
    else Calls(spans[..|spans| - 1])
  }

  predicate Known(call: Span) {
    call.toolName.Some? && call.toolArgsHash.Some?
  }

  predicate Same(a: Span, b: Span) {
    a.toolName == b.toolName && a.toolArgsHash == b.toolArgsHash
  }

  // ---- Maximal groups, said outright ----

  predicate IsUniform(calls: seq<Span>, from: nat, to: nat)
    requires from < to <= |calls|
  {
    forall k :: from <= k < to ==> Known(calls[k]) && Same(calls[k], calls[from])
  }

  /** Calls `from` up to `to` repeat one known call, and neither neighbour repeats it too. */
  predicate IsGroup(calls: seq<Span>, from: nat, to: nat) {
    from < to <= |calls| && IsUniform(calls, from, to) &&
    (from > 0 ==> !(Known(calls[from - 1]) && Same(calls[from - 1], calls[from]))) &&
    (to < |calls| ==> !(Known(calls[to]) && Same(calls[to], calls[from])))
  }

  // ---- Run-length grouping ----

  /** The end of the group that call `at` repeats the head of. */
  function GroupEnd(calls: seq<Span>, head: Span, at: nat): (end: nat)
    requires at <= |calls|
    ensures at <= end <= |calls|
    decreases |calls| - at
  {
    if at < |calls| && Known(calls[at]) && Same(calls[at], head) then GroupEnd(calls, head, at + 1) else at
  }

  /** The groups of at least `threshold` calls, from call `at` on, in order. */
  function Groups(calls: seq<Span>, threshold: int, at: nat): seq<(nat, nat)>
    requires at <= |calls|
    decreases |calls| - at
  {
    if at == |calls| then []
    else if !Known(calls[at]) then Groups(calls, threshold, at + 1)
    else
      var end := GroupEnd(calls, calls[at], at + 1);
      (if end - at >= threshold then [(at, end)] else []) + Groups(calls, threshold, end)
  }

  lemma {:induction false} GroupEndIsFirst(calls: seq<Span>, head: Span, at: nat)
    requires at <= |calls|
    ensures var end := GroupEnd(calls, head, at);
            (forall k :: at <= k < end ==> Known(calls[k]) && Same(calls[k], head)) &&
            (end < |calls| ==> !(Known(calls[end]) && Same(calls[end], head)))
    decreases |calls| - at
  {
    if at < |calls| && Known(calls[at]) && Same(calls[at], head) {
      GroupEndIsFirst(calls, head, at + 1);
    }
  }

  /** A group starts where the call before does not repeat it. */
  predicate StartsFresh(calls: seq<Span>, at: nat)
    requires at <= |calls|
  {
    0 < at < |calls| && Known(calls[at]) ==> !(Known(calls[at - 1]) && Same(calls[at - 1], calls[at]))
  }

  /** Run-length grouping lists exactly the maximal groups that are long enough. */
  lemma {:induction false} GroupsAreTheMaximalOnes(calls: seq<Span>, threshold: int, at: nat, from: nat, to: nat)
    requires at <= |calls| && StartsFresh(calls, at)
    ensures (from, to) in Groups(calls, threshold, at) <==> at <= from && IsGroup(calls, from, to) && to - from >= threshold
    decreases |calls| - at
  {
    if at < |calls| {
      if !Known(calls[at]) {
        GroupsAreTheMaximalOnes(calls, threshold, at + 1, from, to);
        assert from == at < to <= |calls| ==> !Known(calls[from]);
      } else {
        var end := GroupEnd(calls, calls[at], at + 1);
        GroupEndIsFirst(calls, calls[at], at + 1);
        assert StartsFresh(calls, end) by {
          assert Known(calls[end - 1]) && Same(calls[end - 1], calls[at]);
        }
        GroupsAreTheMaximalOnes(calls, threshold, end, from, to);
        HeadGroup(calls, at, end, from, to);
      }
    }
  }

  /** Of the groups that start before `end`, the one at the head is the only one. */
  lemma HeadGroup(calls: seq<Span>, at: nat, end: nat, from: nat, to: nat)
    requires at < end <= |calls| && IsUniform(calls, at, end) && StartsFresh(calls, at)
    requires end < |calls| ==> !(Known(calls[end]) && Same(calls[end], calls[at]))
    ensures at <= from < end ==> (IsGroup(calls, from, to) <==> from == at && to == end)
  {
  }

  predicate InOrder(groups: seq<(nat, nat)>, at: nat) {
    (forall k :: 0 <= k < |groups| ==> at <= groups[k].0 < groups[k].1) &&
    forall j, k :: 0 <= j < k < |groups| ==> groups[j].1 <= groups[k].0
  }

  lemma {:induction false} GroupsAreInOrder(calls: seq<Span>, threshold: int, at: nat)
    requires at <= |calls|
    ensures InOrder(Groups(calls, threshold, at), at)
    decreases |calls| - at
  {
    if at < |calls| {
      if !Known(calls[at]) {
        GroupsAreInOrder(calls, threshold, at + 1);
      } else {
        GroupsAreInOrder(calls, threshold, GroupEnd(calls, calls[at], at + 1));
      }
    }
  }

  // ---- The automaton ----

  function LoopOf(run: Run, calls: seq<Span>): Loop
    requires calls != [] && Known(calls[0])
  {
    Loop(run.traceId, run.spanId, run.agent, calls[0].toolName.value, calls[0].toolArgsHash.value, calls)
  }

  predicate AreGroups(calls: seq<Span>, groups: seq<(nat, nat)>) {
    forall g :: g in groups ==> g.0 < g.1 <= |calls| && Known(calls[g.0])
  }

  /** The loops reported for groups of calls. */
  function Reported(run: Run, calls: seq<Span>, groups: seq<(nat, nat)>): (loops: seq<Loop>)
    requires AreGroups(calls, groups)
    ensures |loops| == |groups|
    ensures forall k :: 0 <= k < |groups| ==> loops[k] == LoopOf(run, calls[groups[k].0..groups[k].1])
  {
    if groups == [] then [] else [LoopOf(run, calls[groups[0].0..groups[0].1])] + Reported(run, calls, groups[1..])
  }

  lemma {:induction false} GroupsAreGroups(calls: seq<Span>, threshold: int, at: nat)
    requires at <= |calls|
    ensures AreGroups(calls, Groups(calls, threshold, at))
    decreases |calls| - at
  {
    if at < |calls| {
      GroupsAreGroups(calls, threshold, if Known(calls[at]) then GroupEnd(calls, calls[at], at + 1) else at + 1);
    }
  }

  /** The loops of a run from its call `at` on. */
  ghost function LoopsFrom(run: Run, calls: seq<Span>, threshold: int, at: nat): seq<Loop>
    requires at <= |calls|
  {
    GroupsAreGroups(calls, threshold, at);
    Reported(run, calls, Groups(calls, threshold, at))
  }

  function Closed(run: Run, streak: seq<Span>, threshold: int): seq<Loop>
    requires streak != [] ==> Known(streak[0])
  {
    if streak != [] && |streak| >= threshold then [LoopOf(run, streak)] else []
  }

  /** The streak is the calls from `from` up to `to`, all the same. */
  predicate IsStreak(calls: seq<Span>, streak: seq<Span>, from: nat, to: nat) {
    from <= to <= |calls| && streak == calls[from..to] && (from < to ==> IsUniform(calls, from, to))
  }

  lemma {:induction false} GroupEndSkips(calls: seq<Span>, head: Span, from: nat, to: nat)
    requires from <= to <= |calls| && forall k :: from <= k < to ==> Known(calls[k]) && Same(calls[k], head)
    ensures GroupEnd(calls, head, from) == GroupEnd(calls, head, to)
    decreases |calls| - from
  {
    if from < to {
      GroupEndSkips(calls, head, from + 1, to);
    }
  }

  lemma HeadGroupComesFirst(calls: seq<Span>, threshold: int, from: nat, to: nat)
    requires from < to <= |calls| && IsUniform(calls, from, to)
    requires to < |calls| ==> !(Known(calls[to]) && Same(calls[to], calls[from]))
    ensures Groups(calls, threshold, from) ==
            (if to - from >= threshold then [(from, to)] else []) + Groups(calls, threshold, to)
  {
    GroupEndSkips(calls, calls[from], from + 1, to);
    assert GroupEnd(calls, calls[from], from + 1) == to;
  }

  lemma ReportedHead(run: Run, calls: seq<Span>, group: (nat, nat), rest: seq<(nat, nat)>)
    requires group.0 < group.1 <= |calls| && Known(calls[group.0]) && AreGroups(calls, rest)
    ensures AreGroups(calls, [group] + rest)
    ensures Reported(run, calls, [group] + rest) == [LoopOf(run, calls[group.0..group.1])] + Reported(run, calls, rest)
  {
    assert ([group] + rest)[1..] == rest;
  }

  lemma LoopsAreReported(run: Run, calls: seq<Span>, threshold: int, at: nat)
    requires at <= |calls|
    ensures AreGroups(calls, Groups(calls, threshold, at))
    ensures LoopsFrom(run, calls, threshold, at) == Reported(run, calls, Groups(calls, threshold, at))
  {
    GroupsAreGroups(calls, threshold, at);
  }

  /** Closing a streak that the next call does not join reports its group and moves past it. */
  lemma CloseReports(run: Run, calls: seq<Span>, streak: seq<Span>, threshold: int, from: nat, to: nat)
    requires IsStreak(calls, streak, from, to) && (from < to ==> Known(streak[0]))
    requires from < to < |calls| ==> !(Known(calls[to]) && Same(calls[to], calls[from]))
    ensures LoopsFrom(run, calls, threshold, from) == Closed(run, streak, threshold) + LoopsFrom(run, calls, threshold, to)
  {
    if from < to {
      hide LoopsFrom;
      hide Reported;
      hide Groups;
      hide LoopOf;
      HeadGroupComesFirst(calls, threshold, from, to);
      LoopsAreReported(run, calls, threshold, from);
      LoopsAreReported(run, calls, threshold, to);
      if to - from >= threshold {
        ReportedHead(run, calls, (from, to), Groups(calls, threshold, to));
      } else {
        assert Groups(calls, threshold, from) == Groups(calls, threshold, to);
      }
    }
  }

  lemma {:induction false} CallsGrow(spans: seq<Span>, k: nat)
    requires k < |spans|
    ensures Calls(spans[..k + 1]) == Calls(spans[..k]) + if IsCall(spans[k]) then [spans[k]] else []
    ensures Calls(spans[..k + 1]) <= Calls(spans)
    decreases |spans| - k
  {
    assert spans[..k + 1][..k] == spans[..k];
    if k + 1 < |spans| {
      CallsGrow(spans, k + 1);
    } else {
      assert spans[..k + 1] == spans;
    }
  }

  /** Where the automaton is after `k` spans: it has met the calls before `to`, reported the loops
      before `from`, and the calls between are its streak. */
  ghost predicate ReachedAfter(run: Run, threshold: int, k: nat, loops: seq<Loop>, streak: seq<Span>, from: nat, to: nat) {
    var calls := Calls(run.spans);
    k <= |run.spans| && to <= |calls| && calls[..to] == Calls(run.spans[..k]) && IsStreak(calls, streak, from, to) &&
    LoopsFrom(run, calls, threshold, 0) == loops + LoopsFrom(run, calls, threshold, from)
  }

  lemma Begins(run: Run, threshold: int)
    ensures ReachedAfter(run, threshold, 0, [], [], 0, 0)
  {
  }

  lemma NextCall(run: Run, threshold: int, k: nat, loops: seq<Loop>, streak: seq<Span>, from: nat, to: nat)
    requires ReachedAfter(run, threshold, k, loops, streak, from, to) && k < |run.spans| && IsCall(run.spans[k])
    ensures var calls := Calls(run.spans); to < |calls| && calls[to] == run.spans[k] && calls[..to + 1] == Calls(run.spans[..k + 1])
  {
    CallsGrow(run.spans, k);
    var calls := Calls(run.spans);
    assert Calls(run.spans[..k + 1]) == calls[..to] + [run.spans[k]];
    assert Calls(run.spans[..k + 1])[to] == calls[to];
  }

  lemma OtherSpan(run: Run, threshold: int, k: nat, loops: seq<Loop>, streak: seq<Span>, from: nat, to: nat)
    requires ReachedAfter(run, threshold, k, loops, streak, from, to) && k < |run.spans| && !IsCall(run.spans[k])
    ensures ReachedAfter(run, threshold, k + 1, loops, streak, from, to)
  {
    CallsGrow(run.spans, k);
  }

  predicate Joins(streak: seq<Span>, call: Span) {
    streak == [] || Same(streak[0], call)
  }

  lemma StreakIsKnown(run: Run, threshold: int, k: nat, loops: seq<Loop>, streak: seq<Span>, from: nat, to: nat)
    requires ReachedAfter(run, threshold, k, loops, streak, from, to)
    ensures streak != [] ==> Known(streak[0])
  {
  }

  /** A call that does not join closes the streak; an unknown one joins none. */
  lemma StreakCloses(run: Run, threshold: int, k: nat, loops: seq<Loop>, streak: seq<Span>, from: nat, to: nat)
    requires ReachedAfter(run, threshold, k, loops, streak, from, to) && (streak != [] ==> Known(streak[0]))
    requires k < |run.spans| && IsCall(run.spans[k]) && (!Known(run.spans[k]) || !Joins(streak, run.spans[k]))
    ensures ReachedAfter(run, threshold, k, loops + Closed(run, streak, threshold), [], to, to)
  {
    NextCall(run, threshold, k, loops, streak, from, to);
    var calls := Calls(run.spans);
    assert from < to ==> streak[0] == calls[from];
    CloseReports(run, calls, streak, threshold, from, to);
  }

  lemma UnknownCall(run: Run, threshold: int, k: nat, loops: seq<Loop>, at: nat)
    requires ReachedAfter(run, threshold, k, loops, [], at, at)
    requires k < |run.spans| && IsCall(run.spans[k]) && !Known(run.spans[k])
    ensures ReachedAfter(run, threshold, k + 1, loops, [], at + 1, at + 1)
  {
    NextCall(run, threshold, k, loops, [], at, at);
    var calls := Calls(run.spans);
    assert Groups(calls, threshold, at) == Groups(calls, threshold, at + 1);
  }

  lemma CallJoins(run: Run, threshold: int, k: nat, loops: seq<Loop>, streak: seq<Span>, from: nat, to: nat)
    requires ReachedAfter(run, threshold, k, loops, streak, from, to)
    requires k < |run.spans| && IsCall(run.spans[k]) && Known(run.spans[k]) && Joins(streak, run.spans[k])
    ensures ReachedAfter(run, threshold, k + 1, loops, streak + [run.spans[k]], from, to + 1)
  {
    NextCall(run, threshold, k, loops, streak, from, to);
    var calls := Calls(run.spans);
    assert calls[from..to + 1] == calls[from..to] + [calls[to]];
    assert from < to ==> streak[0] == calls[from];
  }

  lemma Ends(run: Run, threshold: int, loops: seq<Loop>, streak: seq<Span>, from: nat, to: nat)
    requires ReachedAfter(run, threshold, |run.spans|, loops, streak, from, to) && (streak != [] ==> Known(streak[0]))
    ensures loops + Closed(run, streak, threshold) == LoopsFrom(run, Calls(run.spans), threshold, 0)
  {
    var calls := Calls(run.spans);
    assert run.spans[..|run.spans|] == run.spans;
    assert to == |calls| && LoopsFrom(run, calls, threshold, to) == [];
    CloseReports(run, calls, streak, threshold, from, to);
  }

  method LoopsIn(run: Run, threshold: int) returns (loops: seq<Loop>)
    ensures loops == LoopsFrom(run, Calls(run.spans), threshold, 0)
  {
    var streak: seq<Span> := [];
    loops := [];
    ghost var from: nat, to: nat := 0, 0;
    Begins(run, threshold);
    var k := 0;
    while k < |run.spans|
      invariant k <= |run.spans| && ReachedAfter(run, threshold, k, loops, streak, from, to)
    {
      hide *;
      var span := run.spans[k];
      CallOrNot(span);
      if span.operation != "execute_tool" {
        OtherSpan(run, threshold, k, loops, streak, from, to);
      } else {
        StreakIsKnown(run, threshold, k, loops, streak, from, to);
        if span.toolName.None? || span.toolArgsHash.None? {
          StreakCloses(run, threshold, k, loops, streak, from, to);
          loops, streak, from := loops + Closed(run, streak, threshold), [], to;
          UnknownCall(run, threshold, k, loops, to);
          from, to := to + 1, to + 1;
        } else {
          JoinsOrNot(streak, span);
          if |streak| > 0 && (streak[0].toolName != span.toolName || streak[0].toolArgsHash != span.toolArgsHash) {
            StreakCloses(run, threshold, k, loops, streak, from, to);
            loops, streak, from := loops + Closed(run, streak, threshold), [], to;
          }
          JoinsOrNot(streak, span);
          CallJoins(run, threshold, k, loops, streak, from, to);
          streak, to := streak + [span], to + 1;
        }
      }
      k := k + 1;
    }
    StreakIsKnown(run, threshold, k, loops, streak, from, to);
    Ends(run, threshold, loops, streak, from, to);
    loops := loops + Closed(run, streak, threshold);
  }

  lemma CallOrNot(s: Span)
    ensures IsCall(s) <==> s.operation == "execute_tool"
    ensures Known(s) <==> s.toolName.Some? && s.toolArgsHash.Some?
  {
  }

  lemma JoinsOrNot(streak: seq<Span>, s: Span)
    ensures Joins(streak, s) <==> streak == [] || (streak[0].toolName == s.toolName && streak[0].toolArgsHash == s.toolArgsHash)
  {
  }

  /** The reported loops are exactly the maximal groups of at least `threshold` consecutive calls
      with one known name and argument hash, in order, no call in two of them. */
  lemma LoopsAreTheMaximalGroups(run: Run, threshold: int, from: nat, to: nat)
    ensures var calls := Calls(run.spans);
            ((from, to) in Groups(calls, threshold, 0) <==> IsGroup(calls, from, to) && to - from >= threshold) &&
            InOrder(Groups(calls, threshold, 0), 0) &&
            AreGroups(calls, Groups(calls, threshold, 0)) &&
            LoopsFrom(run, calls, threshold, 0) == Reported(run, calls, Groups(calls, threshold, 0))
  {
    var calls := Calls(run.spans);
    GroupsAreTheMaximalOnes(calls, threshold, 0, from, to);
    GroupsAreInOrder(calls, threshold, 0);
    GroupsAreGroups(calls, threshold, 0);
  }

  // ---- All runs ----

  ghost function AllLoops(runs: seq<Run>, threshold: int): seq<Loop> {
    if runs == [] then []
    else
      var last := runs[|runs| - 1];
      AllLoops(runs[..|runs| - 1], threshold) + LoopsFrom(last, Calls(last.spans), threshold, 0)
  }

  lemma NoRunNoLoop(threshold: int)
    ensures AllLoops([], threshold) == []
  {
  }

  lemma AllLoopsOneMore(runs: seq<Run>, run: Run, threshold: int)
    ensures AllLoops(runs + [run], threshold) == AllLoops(runs, threshold) + LoopsFrom(run, Calls(run.spans), threshold, 0)
  {
    hide LoopsFrom;
    assert (runs + [run])[..|runs|] == runs;
  }

  method DetectLoops(spans: seq<Span>, threshold: Option<real>) returns (loops: seq<Loop>)
    ensures loops == AllLoops(AssemblyOf(spans).runs, LoopThreshold(threshold))
  {
    hide *;
    var assembly := Assemble(spans);
    var runs := assembly.runs;
    loops := [];
    NoRunNoLoop(LoopThreshold(threshold));
    assert runs[..0] == [];
    for k := 0 to |runs|
      invariant loops == AllLoops(runs[..k], LoopThreshold(threshold))
    {
      AllLoopsOneMore(runs[..k], runs[k], LoopThreshold(threshold));
      assert runs[..k + 1] == runs[..k] + [runs[k]];
      var more := LoopsIn(runs[k], LoopThreshold(threshold));
      loops := loops + more;
    }
    assert runs[..|runs|] == runs;
  }
}
