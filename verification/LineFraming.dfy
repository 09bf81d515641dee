/** Cutting a stream into lines as it arrives, against cutting the whole text at once. */
module LineFraming {
  import opened Text

  /** Splitting at `\r?\n`: every part but the last loses one carriage return at its end. */
  function Rows(s: string): (rows: seq<string>)
    ensures |rows| >= 1
  {
    var parts := Split(s, '\n');
    StrippedRows(parts[..|parts| - 1]) + [parts[|parts| - 1]]
  }

  /** The rows whose end has been seen. */
  function Complete(s: string): seq<string> {
    Rows(s)[..|Rows(s)| - 1]
  }

  function Tail(s: string): string {
    Rows(s)[|Rows(s)| - 1]
  }

  // ---- What splitting means ----

  function Rejoined(rows: seq<string>, crlf: seq<bool>, tail: string): string
    requires |rows| == |crlf|
  {
    if rows == [] then tail else rows[0] + (if crlf[0] then "\r\n" else "\n") + Rejoined(rows[1..], crlf[1..], tail)
  }

  /** The text is rows with their ends and an unended rest; a row before a bare line feed does not
      end in a carriage return. */
  predicate Decomposes(s: string, rows: seq<string>, crlf: seq<bool>, tail: string) {
    |rows| == |crlf| && '\n' !in tail && s == Rejoined(rows, crlf, tail) &&
    forall k :: 0 <= k < |rows| ==> '\n' !in rows[k] && (!crlf[k] ==> !EndsWith(rows[k], '\r'))
  }

  lemma {:induction false} DecompositionIsUnique(s: string, rows: seq<string>, crlf: seq<bool>, tail: string)
    requires Decomposes(s, rows, crlf, tail)
    ensures Complete(s) == rows && Tail(s) == tail
    decreases |rows|
  {
    hide *;
    if rows == [] {
      NothingJoined(s, rows, crlf, tail);
      NoRows(tail);
    } else {
      FirstRowOff(s, rows, crlf, tail);
      var rest := Rejoined(rows[1..], crlf[1..], tail);
      var raw := if crlf[0] then rows[0] + "\r" else rows[0];
      DecompositionIsUnique(rest, rows[1..], crlf[1..], tail);
      FirstRow(raw, rest);
      assert rows == [rows[0]] + rows[1..];
    }
  }

  lemma NothingJoined(s: string, rows: seq<string>, crlf: seq<bool>, tail: string)
    requires Decomposes(s, rows, crlf, tail) && rows == []
    ensures s == tail && '\n' !in tail
  {
  }

  lemma FirstRowOff(s: string, rows: seq<string>, crlf: seq<bool>, tail: string)
    requires Decomposes(s, rows, crlf, tail) && rows != []
    ensures |rows| == |crlf|
    ensures var rest := Rejoined(rows[1..], crlf[1..], tail);
            var raw := if crlf[0] then rows[0] + "\r" else rows[0];
            s == raw + ['\n'] + rest && '\n' !in raw && StripCr(raw) == rows[0] && Decomposes(rest, rows[1..], crlf[1..], tail)
  {
    assert '\n' !in rows[0] && (!crlf[0] ==> !EndsWith(rows[0], '\r'));
  }

  lemma FirstRow(raw: string, rest: string)
    requires '\n' !in raw
    ensures Rows(raw + ['\n'] + rest) == [StripCr(raw)] + Rows(rest)
    ensures Complete(raw + ['\n'] + rest) == [StripCr(raw)] + Complete(rest) && Tail(raw + ['\n'] + rest) == Tail(rest)
  {
    SplitAt(raw, '\n', rest);
    RowsOfParts(raw + ['\n'] + rest, raw, rest);
    RowsGrow(StripCr(raw), Rows(rest));
  }

  lemma RowsOfParts(s: string, raw: string, rest: string)
    requires Split(s, '\n') == [raw] + Split(rest, '\n')
    ensures Rows(s) == [StripCr(raw)] + Rows(rest)
  {
  }

  lemma RowsGrow(row: string, rows: seq<string>)
    requires rows != []
    ensures ([row] + rows)[..|rows|] == [row] + rows[..|rows| - 1] && ([row] + rows)[|rows|] == rows[|rows| - 1]
  {
  }

  lemma NoRows(s: string)
    requires '\n' !in s
    ensures Rows(s) == [s] && Complete(s) == [] && Tail(s) == s
  {
    SplitOne(s, '\n');
  }

  /** Every text decomposes. */
  lemma {:induction false} EveryTextDecomposes(s: string) returns (crlf: seq<bool>)
    ensures Decomposes(s, Complete(s), crlf, Tail(s))
    decreases |s|
  {
    if '\n' !in s {
      NoRows(s);
      crlf := [];
    } else {
      var n := FirstFeed(s);
      var raw, rest := s[..n], s[n + 1..];
      assert s == raw + ['\n'] + rest;
      FirstRow(raw, rest);
      var more := EveryTextDecomposes(rest);
      crlf := [EndsWith(raw, '\r')] + more;
      OneMoreRow(raw, rest, Complete(rest), more, Tail(rest));
    }
  }

  lemma OneMoreRow(raw: string, rest: string, rows: seq<string>, crlf: seq<bool>, tail: string)
    requires '\n' !in raw && Decomposes(rest, rows, crlf, tail)
    ensures Decomposes(raw + ['\n'] + rest, [StripCr(raw)] + rows, [EndsWith(raw, '\r')] + crlf, tail)
  {
  }

  lemma FirstFeed(s: string) returns (n: nat)
    requires '\n' in s
    ensures n < |s| && s[n] == '\n' && '\n' !in s[..n]
  {
    n := 0;
    while s[n] != '\n'
      invariant n < |s| && '\n' !in s[..n] && '\n' in s[n..]
      decreases |s| - n
    {
      assert s[..n + 1] == s[..n] + [s[n]];
      assert s[n..] == [s[n]] + s[n + 1..];
      n := n + 1;
    }
  }

  /** Reading on: what was complete stays, and the rest of the text joins the tail. */
  lemma {:induction false} ReadingOn(s: string, more: string)
    ensures Complete(s + more) == Complete(s) + Complete(Tail(s) + more)
    ensures Tail(s + more) == Tail(Tail(s) + more)
    decreases |s|
  {
    hide *;
    if '\n' !in s {
      NoRows(s);
      assert Complete(s + more) == [] + Complete(s + more);
    } else {
      var n := FirstFeed(s);
      var raw, rest := s[..n], s[n + 1..];
      assert s == raw + ['\n'] + rest && s + more == raw + ['\n'] + (rest + more);
      FirstRow(raw, rest);
      FirstRow(raw, rest + more);
      ReadingOn(rest, more);
    }
  }

  // ---- The reader ----

  function Concat(chunks: seq<string>): string {
    if chunks == [] then "" else Concat(chunks[..|chunks| - 1]) + chunks[|chunks| - 1]
  }

  /** The lines of a whole text: an unended last line counts when it is not empty. */
  function LinesOf(s: string): seq<string> {
    Complete(s) + if Tail(s) != "" then [Tail(s)] else []
  }

  /** `chunks` is what the reads before the last decode to, `last` what the last one flushes. After
      each read the lines yielded are those whose end has arrived. */
  method ReadLines(chunks: seq<string>, last: string) returns (lines: seq<string>)
    ensures lines == LinesOf(Concat(chunks) + last)
  {
    hide *;
    lines := [];
    var buffer := "";
    var k := 0;
    NoRows("");
    NoChunk();
    assert chunks[..0] == [];
    while true
      invariant k <= |chunks|
      invariant lines == Complete(Concat(chunks[..k])) && buffer == Tail(Concat(chunks[..k]))
      decreases |chunks| - k
    {
      var done := k == |chunks|;
      var value := if done then last else chunks[k];
      ReadingOn(Concat(chunks[..k]), value);
      buffer := buffer + value;
      RowsAre(buffer);
      var rows := Rows(buffer);
      buffer := rows[|rows| - 1];
      lines := lines + rows[..|rows| - 1];
      if done {
        assert chunks[..k] == chunks;
        LinesAre(Concat(chunks) + last);
        if |buffer| > 0 {
          lines := lines + [buffer];
        }
        break;
      }
      OneMoreChunk(chunks[..k], chunks[k]);
      assert chunks[..k + 1] == chunks[..k] + [chunks[k]];
      k := k + 1;
    }
  }

  lemma NoChunk()
    ensures Concat([]) == ""
  {
  }

  lemma OneMoreChunk(chunks: seq<string>, chunk: string)
    ensures Concat(chunks + [chunk]) == Concat(chunks) + chunk
  {
    assert (chunks + [chunk])[..|chunks|] == chunks;
  }

  lemma RowsAre(s: string)
    ensures Rows(s)[..|Rows(s)| - 1] == Complete(s) && Rows(s)[|Rows(s)| - 1] == Tail(s)
  {
  }

  /** However a text is cut into chunks, a carriage return and its line feed apart included, the
      lines are those of the whole text. */
  lemma ChunkingDoesNotMatter(a: seq<string>, lastA: string, b: seq<string>, lastB: string,
      rows: seq<string>, crlf: seq<bool>, tail: string)
    requires Concat(a) + lastA == Concat(b) + lastB && Decomposes(Concat(a) + lastA, rows, crlf, tail)
    ensures LinesOf(Concat(a) + lastA) == LinesOf(Concat(b) + lastB) == rows + if tail != "" then [tail] else []
  {
    DecompositionIsUnique(Concat(a) + lastA, rows, crlf, tail);
  }

  /** What has been yielded is never taken back: it begins what the whole text yields. */
  lemma YieldedLinesStay(chunks: seq<string>, k: nat, last: string)
    requires k <= |chunks|
    ensures Complete(Concat(chunks[..k])) <= LinesOf(Concat(chunks) + last)
  {
    hide *;
    ConcatSplits(chunks, k);
    Joins(Concat(chunks[..k]), Concat(chunks[k..]), last);
    CompleteStays(Concat(chunks[..k]), Concat(chunks[k..]) + last);
  }

  lemma Joins(a: string, b: string, c: string)
    ensures a + b + c == a + (b + c)
  {
  }

  lemma CompleteStays(s: string, more: string)
    ensures Complete(s) <= LinesOf(s + more)
  {
    hide *;
    ReadingOn(s, more);
    LinesAre(s + more);
  }

  lemma LinesAre(s: string)
    ensures LinesOf(s) == Complete(s) + if Tail(s) != "" then [Tail(s)] else []
  {
  }

  lemma {:induction false} ConcatSplits(chunks: seq<string>, k: nat)
    requires k <= |chunks|
    ensures Concat(chunks) == Concat(chunks[..k]) + Concat(chunks[k..])
    decreases |chunks|
  {
    if k == |chunks| {
      assert chunks[..k] == chunks;
    } else {
      var front := chunks[..|chunks| - 1];
      ConcatSplits(front, k);
      assert front[..k] == chunks[..k] && chunks[k..][..|chunks| - 1 - k] == front[k..];
    }
  }
}
