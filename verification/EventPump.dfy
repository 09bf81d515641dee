/** The pump that turns a growing file of NDJSON events into deliveries. */
module EventPump {
  import opened Wrappers
  import opened Text
  import opened LineFraming

  /** `accepts(n, line)` is whether the `n`-th attempt at a delivery goes through: the line parses as
      an event and the handler does not fail on it, this time. */
  type Handler = (nat, string) -> bool

  datatype Pump = Pump(offset: nat, buffer: string, delivered: seq<string>, attempts: nat, failed: bool)

  const IDLE := Pump(0, "", [], 0, false)

  function NonEmpty(lines: seq<string>): seq<string> {
    if lines == [] then []
    else if lines[|lines| - 1] == "" then NonEmpty(lines[..|lines| - 1])
    else NonEmpty(lines[..|lines| - 1]) + [lines[|lines| - 1]]
  }

  /** Deliveries in order, up to the first that fails. */
  function Deliver(delivered: seq<string>, attempts: nat, lines: seq<string>, accepts: Handler): (seq<string>, nat, bool)
    decreases |lines|
  {
    if lines == [] then (delivered, attempts, true)
    else if !accepts(attempts, lines[0]) then (delivered, attempts + 1, false)
    else Deliver(delivered + [lines[0]], attempts + 1, lines[1..], accepts)
  }

  /** One flush of the file as it reads now; a failure drops what is left of its batch. */
  function Flushed(p: Pump, data: string, accepts: Handler): Pump {
    if |data| <= p.offset && p.buffer == "" then p
    else
      var rows := Rows(p.buffer + if |data| <= p.offset then "" else data[p.offset..]);
      var ended := EndsWith(data, '\n');
      var (delivered, attempts, ok) := Deliver(p.delivered, p.attempts, NonEmpty(if ended then rows else rows[..|rows| - 1]), accepts);
      Pump(|data|, if ended then "" else rows[|rows| - 1], delivered, attempts, p.failed || !ok)
  }

  class EventPump {
    var offset: nat
    var eventBuffer: string
    var deliveryError: bool
    var delivered: seq<string>
    /** How many lines the handler was ever given, the ones it failed on included. */
    var attempts: nat

    ghost function State(): Pump
      reads this
    {
      Pump(offset, eventBuffer, delivered, attempts, deliveryError)
    }

    constructor ()
      ensures State() == IDLE
    {
      offset, eventBuffer, deliveryError, delivered, attempts := 0, "", false, [], 0;
    }

    /** False is a rejection: a line that does not parse, or a handler that failed. */
    method FlushEvents(data: string, accepts: Handler) returns (ok: bool)
      modifies this
      ensures State().(failed := old(deliveryError) || !ok) == Flushed(old(State()), data, accepts)
      ensures deliveryError == old(deliveryError)
    {
      if |data| <= offset && eventBuffer == "" {
        return true;
      }
      var chunk := eventBuffer + if |data| <= offset then "" else data[offset..];
      offset := |data|;
      var parts := Rows(chunk);
      if EndsWith(data, '\n') {
        eventBuffer := "";
      } else {
        eventBuffer := parts[|parts| - 1];
        parts := parts[..|parts| - 1];
      }
      var lines := NonEmpty(parts);
      var k := 0;
      while k < |lines|
        invariant k <= |lines|
        invariant Deliver(old(delivered), old(attempts), lines, accepts) == Deliver(delivered, attempts, lines[k..], accepts)
        invariant offset == |data| && deliveryError == old(deliveryError)
        invariant eventBuffer == if EndsWith(data, '\n') then "" else Tail(chunk)
      {
        var accepted := accepts(attempts, lines[k]);
        attempts := attempts + 1;
        if !accepted {
          return false;
        }
        delivered := delivered + [lines[k]];
        k := k + 1;
      }
      return true;
    }

    /** The first failure is kept; a later flush goes on from where the file is. */
    method QueueFlush(data: string, accepts: Handler)
      modifies this
      ensures State() == Flushed(old(State()), data, accepts)
    {
      var ok := FlushEvents(data, accepts);
      deliveryError := deliveryError || !ok;
    }

    /** Reads the file twice more, and reports whether anything failed. */
    method Finish(data: string, later: string, accepts: Handler) returns (error: bool)
      modifies this
      ensures State() == Flushed(Flushed(old(State()), data, accepts), later, accepts) && error == deliveryError
    {
      QueueFlush(data, accepts);
      QueueFlush(later, accepts);
      return deliveryError;
    }
  }

  // ---- Every run of snapshots ----

  function Pumped(snapshots: seq<string>, accepts: Handler): Pump {
    if snapshots == [] then IDLE else Flushed(Pumped(snapshots[..|snapshots| - 1], accepts), snapshots[|snapshots| - 1], accepts)
  }

  /** The file only grows. */
  predicate AppendOnly(snapshots: seq<string>) {
    forall i :: 0 < i < |snapshots| ==> snapshots[i - 1] <= snapshots[i]
  }

  function Newest(snapshots: seq<string>): string {
    if snapshots == [] then "" else snapshots[|snapshots| - 1]
  }

  /** The pump has read `data`, and without a failure delivered exactly its complete lines. */
  predicate CaughtUp(p: Pump, data: string) {
    p.offset == |data| && p.buffer == Tail(data) &&
    if p.failed then |p.delivered| < |NonEmpty(Complete(data))| else p.delivered == NonEmpty(Complete(data))
  }

  lemma {:induction false} NonEmptyAppends(a: seq<string>, b: seq<string>)
    ensures NonEmpty(a + b) == NonEmpty(a) + NonEmpty(b)
    decreases |b|
  {
    if b == [] {
      assert a + b == a;
    } else {
      NonEmptyAppends(a, b[..|b| - 1]);
      assert (a + b)[..|a + b| - 1] == a + b[..|b| - 1];
    }
  }

  /** All the lines are delivered, or fewer than all. */
  lemma {:induction false} DeliverAllOrFewer(delivered: seq<string>, attempts: nat, lines: seq<string>, accepts: Handler)
    ensures var r := Deliver(delivered, attempts, lines, accepts);
            if r.2 then r.0 == delivered + lines else |r.0| < |delivered| + |lines|
    decreases |lines|
  {
    if lines != [] && accepts(attempts, lines[0]) {
      DeliverAllOrFewer(delivered + [lines[0]], attempts + 1, lines[1..], accepts);
    }
  }

  /** What ends in a line feed has no tail. */
  lemma EndedHasNoTail(data: string)
    requires EndsWith(data, '\n')
    ensures Tail(data) == ""
  {
    assert data == data[..|data| - 1] + "\n";
    ReadingOn(data[..|data| - 1], "\n");
    var crlf := EveryTextDecomposes(data);
    var tail := Tail(data);
    assert tail != "" ==> tail[|tail| - 1] in tail;
    if tail != "" {
      TailEndsText(Complete(data), crlf, tail);
    }
  }

  lemma {:induction false} TailEndsText(rows: seq<string>, crlf: seq<bool>, tail: string)
    requires |rows| == |crlf| && tail != ""
    ensures var s := Rejoined(rows, crlf, tail); s != "" && s[|s| - 1] == tail[|tail| - 1]
  {
    if rows != [] {
      TailEndsText(rows[1..], crlf[1..], tail);
    }
  }

  /** A pump never looks again at what it has read: of a longer text it takes what is past it. */
  function ReadOn(read: string, data: string): string
    requires |read| <= |data|
  {
    read + data[|read|..]
  }

  /** What is new in `data` since `read` was read: the complete lines that the kept tail and it make. */
  function Fresh(read: string, data: string): seq<string>
    requires |read| <= |data|
  {
    NonEmpty(Complete(Tail(read) + data[|read|..]))
  }

  /** A flush that has something to do delivers what is new, and keeps the newest tail. */
  lemma FlushDeliversFresh(p: Pump, read: string, data: string, accepts: Handler)
    requires p.offset == |read| <= |data| && p.buffer == Tail(read) && (|data| > p.offset || p.buffer != "")
    requires EndsWith(data, '\n') ==> EndsWith(ReadOn(read, data), '\n')
    ensures var r := Deliver(p.delivered, p.attempts, Fresh(read, data), accepts);
            Flushed(p, data, accepts) == Pump(|data|, Tail(ReadOn(read, data)), r.0, r.1, p.failed || !r.2)
  {
    var more := data[|read|..];
    var chunk := Tail(read) + more;
    ReadingOn(read, more);
    assert chunk == p.buffer + if |data| <= p.offset then "" else data[p.offset..];
    assert Rows(chunk) == Complete(chunk) + [Tail(chunk)];
    if EndsWith(data, '\n') {
      EndedHasNoTail(ReadOn(read, data));
      NonEmptyAppends(Complete(chunk), [""]);
      assert NonEmpty([""]) == [];
    }
  }

  lemma FreshLines(read: string, data: string)
    requires |read| <= |data|
    ensures NonEmpty(Complete(ReadOn(read, data))) == NonEmpty(Complete(read)) + Fresh(read, data)
  {
    var more := data[|read|..];
    ReadingOn(read, more);
    NonEmptyAppends(Complete(read), Complete(Tail(read) + more));
  }

  lemma FlushCatchesUp(p: Pump, read: string, data: string, accepts: Handler)
    requires CaughtUp(p, read) && |read| <= |data|
    requires EndsWith(data, '\n') ==> EndsWith(ReadOn(read, data), '\n')
    ensures CaughtUp(Flushed(p, data, accepts), ReadOn(read, data))
  {
    if |data| > p.offset || p.buffer != "" {
      FlushDeliversFresh(p, read, data, accepts);
      FreshLines(read, data);
      DeliverAllOrFewer(p.delivered, p.attempts, Fresh(read, data), accepts);
    } else {
      assert ReadOn(read, data) == read;
    }
  }

  // ---- What a pump makes of what it reads ----

  /** No text is shorter than the one before, and one as long as it ends in a line feed only if that
      did. A file that only grows reads so, whatever a character cut by a read decodes to. */
  predicate Lengthens(before: string, data: string) {
    |before| <= |data| && (|before| == |data| && EndsWith(data, '\n') ==> EndsWith(before, '\n'))
  }

  predicate Lengthening(snapshots: seq<string>) {
    forall i :: 0 < i < |snapshots| ==> Lengthens(snapshots[i - 1], snapshots[i])
  }

  /** Each character as it was when it was first read. */
  function FirstRead(snapshots: seq<string>): (read: string)
    requires Lengthening(snapshots)
    ensures |read| == |Newest(snapshots)|
  {
    if snapshots == [] then "" else ReadOn(FirstRead(snapshots[..|snapshots| - 1]), snapshots[|snapshots| - 1])
  }

  lemma {:induction false} EndIsRead(snapshots: seq<string>)
    requires Lengthening(snapshots)
    ensures EndsWith(Newest(snapshots), '\n') ==> EndsWith(FirstRead(snapshots), '\n')
  {
    if snapshots != [] {
      EndIsRead(snapshots[..|snapshots| - 1]);
    }
  }

  /** A pump that reports no error has delivered, once each and in order, the complete non-empty
      lines of the characters as it first read them; one that reports an error has not delivered all. */
  lemma {:induction false} PumpDeliversFirstRead(snapshots: seq<string>, accepts: Handler)
    requires Lengthening(snapshots)
    ensures CaughtUp(Pumped(snapshots, accepts), FirstRead(snapshots))
  {
    if snapshots == [] {
      NoRows("");
    } else {
      var front := snapshots[..|snapshots| - 1];
      PumpDeliversFirstRead(front, accepts);
      EndIsRead(snapshots);
      FlushCatchesUp(Pumped(front, accepts), FirstRead(front), Newest(snapshots), accepts);
    }
  }

  /** Snapshot `k` shows the characters it is the first to show as they are in `data`. */
  predicate IsFinal(snapshots: seq<string>, k: nat, data: string)
    requires k < |snapshots| && |snapshots[k]| <= |data|
  {
    var from := if k == 0 then 0 else |snapshots[k - 1]|;
    from <= |snapshots[k]| && snapshots[k][from..] == data[from..|snapshots[k]|]
  }

  lemma {:induction false} NoneIsLonger(snapshots: seq<string>, k: nat)
    requires Lengthening(snapshots) && k < |snapshots|
    ensures |snapshots[k]| <= |Newest(snapshots)|
    decreases |snapshots|
  {
    if k + 1 < |snapshots| {
      NoneIsLonger(snapshots[..|snapshots| - 1], k);
    }
  }

  ghost predicate AllFinal(snapshots: seq<string>, data: string)
    requires Lengthening(snapshots) && |Newest(snapshots)| <= |data|
  {
    forall k :: 0 <= k < |snapshots| ==> |snapshots[k]| <= |data| && IsFinal(snapshots, k, data)
  }

  lemma {:induction false} FirstReadBegins(snapshots: seq<string>, data: string)
    requires Lengthening(snapshots) && |Newest(snapshots)| <= |data|
    ensures FirstRead(snapshots) <= data <==> AllFinal(snapshots, data)
  {
    if snapshots == [] {
    } else {
      hide *;
      var front, last := snapshots[..|snapshots| - 1], snapshots[|snapshots| - 1];
      FirstReadStep(snapshots);
      FirstReadBegins(front, data);
      FinalStep(snapshots, data);
      JoinBegins(FirstRead(front), last, data);
    }
  }

  lemma FirstReadStep(snapshots: seq<string>)
    requires Lengthening(snapshots) && snapshots != []
    ensures var front, last := snapshots[..|snapshots| - 1], snapshots[|snapshots| - 1];
            Newest(snapshots) == last && Lengthening(front) && |FirstRead(front)| == |Newest(front)| <= |last| &&
            FirstRead(snapshots) == ReadOn(FirstRead(front), last)
  {
  }

  lemma FinalStep(snapshots: seq<string>, data: string)
    requires Lengthening(snapshots) && snapshots != [] && |Newest(snapshots)| <= |data|
    ensures var front, last := snapshots[..|snapshots| - 1], snapshots[|snapshots| - 1];
            Lengthening(front) && |Newest(front)| <= |last| <= |data| &&
            (AllFinal(snapshots, data) <==>
             AllFinal(front, data) && last[|Newest(front)|..] == data[|Newest(front)|..|last|])
  {
    hide Lengthens;
    hide IsFinal;
    FirstReadStep(snapshots);
    var front, n := snapshots[..|snapshots| - 1], |snapshots| - 1;
    forall k | 0 <= k < n
      ensures |front[k]| <= |data| && |snapshots[k]| <= |data| && IsFinal(front, k, data) == IsFinal(snapshots, k, data)
    {
      NoneIsLonger(snapshots, k);
      SameFinal(snapshots, k, data);
    }
    LastFinal(snapshots, data);
  }

  lemma SameFinal(snapshots: seq<string>, k: nat, data: string)
    requires k < |snapshots| - 1 && |snapshots[k]| <= |data|
    ensures IsFinal(snapshots[..|snapshots| - 1], k, data) == IsFinal(snapshots, k, data)
  {
  }

  lemma LastFinal(snapshots: seq<string>, data: string)
    requires snapshots != [] && |Newest(snapshots[..|snapshots| - 1])| <= |Newest(snapshots)| <= |data|
    ensures var from, last := |Newest(snapshots[..|snapshots| - 1])|, Newest(snapshots);
            IsFinal(snapshots, |snapshots| - 1, data) <==> last[from..] == data[from..|last|]
  {
  }

  lemma JoinBegins(read: string, last: string, data: string)
    requires |read| <= |last| <= |data|
    ensures ReadOn(read, last) <= data <==> read <= data && last[|read|..] == data[|read|..|last|]
  {
    var whole, more := ReadOn(read, last), last[|read|..];
    if whole <= data {
      assert data[..|last|] == whole;
      assert whole[|read|..] == more;
    }
  }

  /** So what it delivers is what the file holds exactly when every character was final when it was
      first read. */
  lemma FirstReadIsNewestExactlyWhen(snapshots: seq<string>)
    requires Lengthening(snapshots)
    ensures FirstRead(snapshots) == Newest(snapshots) <==> AllFinal(snapshots, Newest(snapshots))
  {
    FirstReadBegins(snapshots, Newest(snapshots));
  }

  /** A read that cuts a character leaves what the cut one read as in the line for good. */
  lemma CutCharacterIsLost(line: string, cut: char, whole: char, accepts: Handler)
    requires '\n' !in line && cut != '\n' && cut != '\r' && whole != '\n' && whole != '\r' && cut != whole
    requires accepts(0, line + [cut])
    ensures var snapshots := [line + [cut], line + [whole] + ['\n']];
            Lengthening(snapshots) && !AllFinal(snapshots, Newest(snapshots)) &&
            Pumped(snapshots, accepts).delivered == [line + [cut]] && !Pumped(snapshots, accepts).failed &&
            NonEmpty(Complete(Newest(snapshots))) == [line + [whole]]
  {
    hide *;
    var first, second := line + [cut], line + [whole] + ['\n'];
    TwoSnapshots(first, second, accepts);
    assert second[|first|..] == ['\n'];
    assert (first + ['\n'])[|line|] == cut && second[|line|] == whole;
    FirstReadIsNewestExactlyWhen([first, second]);
    OneLine(line + [whole]);
    FirstFlush(first, accepts);
    SecondFlush(first, second, accepts);
  }

  lemma TwoSnapshots(first: string, second: string, accepts: Handler)
    requires |first| < |second|
    ensures Lengthening([first, second]) && Newest([first, second]) == second
    ensures FirstRead([first, second]) == first + second[|first|..]
    ensures Pumped([first, second], accepts) == Flushed(Flushed(IDLE, first, accepts), second, accepts)
  {
    hide Flushed;
    assert [first, second][..1] == [first] && [first][..0] == [];
    assert Pumped([first], accepts) == Flushed(IDLE, first, accepts);
    assert FirstRead([first]) == first;
  }

  lemma FirstFlush(first: string, accepts: Handler)
    requires '\n' !in first && first != ""
    ensures Flushed(IDLE, first, accepts) == Pump(|first|, first, [], 0, false)
  {
    NoRows("");
    NoRows(first);
    FlushDeliversFresh(IDLE, "", first, accepts);
    assert Tail("") + first[0..] == first && ReadOn("", first) == first;
  }

  lemma SecondFlush(first: string, second: string, accepts: Handler)
    requires '\n' !in first && first != "" && first[|first| - 1] != '\r' && accepts(0, first)
    requires |second| == |first| + 1 && second[|first|..] == ['\n']
    ensures Flushed(Pump(|first|, first, [], 0, false), second, accepts).delivered == [first]
    ensures !Flushed(Pump(|first|, first, [], 0, false), second, accepts).failed
  {
    hide *;
    NoRows(first);
    OneLine(first);
    FreshIs(first, second);
    DeliverOne(first, accepts);
    FlushDeliversFresh(Pump(|first|, first, [], 0, false), first, second, accepts);
  }

  lemma FreshIs(read: string, data: string)
    requires |read| <= |data|
    ensures Fresh(read, data) == NonEmpty(Complete(Tail(read) + data[|read|..]))
    ensures ReadOn(read, data) == read + data[|read|..]
    ensures data[|read|..] == ['\n'] ==> EndsWith(ReadOn(read, data), '\n')
  {
  }

  lemma DeliverOne(line: string, accepts: Handler)
    requires accepts(0, line)
    ensures Deliver([], 0, [line], accepts) == ([line], 1, true)
  {
    assert [line][1..] == [] && [] + [line] == [line];
    assert Deliver([line], 1, [], accepts) == ([line], 1, true);
  }

  lemma OneLine(line: string)
    requires '\n' !in line && line != "" && line[|line| - 1] != '\r'
    ensures Complete(line + ['\n']) == [line] && NonEmpty(Complete(line + ['\n'])) == [line]
  {
    NoRows("");
    FirstRow(line, "");
    assert line + ['\n'] + "" == line + ['\n'];
  }

  lemma {:induction false} GrowingIsFinal(snapshots: seq<string>)
    requires AppendOnly(snapshots)
    ensures Lengthening(snapshots) && FirstRead(snapshots) == Newest(snapshots)
  {
    forall i | 0 < i < |snapshots| ensures Lengthens(snapshots[i - 1], snapshots[i]) {
      assert snapshots[i - 1] <= snapshots[i];
    }
    if snapshots != [] {
      GrowingIsFinal(snapshots[..|snapshots| - 1]);
    }
  }

  /** However the file grew between flushes: a pump that reports no error has delivered each
      complete non-empty line once, in order, and one that reports an error has not delivered all. */
  lemma PumpDeliversLines(snapshots: seq<string>, accepts: Handler)
    requires AppendOnly(snapshots)
    ensures CaughtUp(Pumped(snapshots, accepts), Newest(snapshots))
  {
    GrowingIsFinal(snapshots);
    PumpDeliversFirstRead(snapshots, accepts);
  }
}
