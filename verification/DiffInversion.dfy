/** The parser inverts the printer. */
module DiffInversion {
  import opened Wrappers
  import opened Text
  import opened Decimal
  import opened UnifiedDiff
  import opened DiffPrinting

  type Pairs = set<(string, int)>

  /** `after` holds what `before` does, and `more`. */
  ghost predicate Grown(before: UnifiedDiff.Lines, after: UnifiedDiff.Lines, more: Pairs) {
    (forall path, line: int :: Has(after, path, line) <==> Has(before, path, line) || (path, line) in more) &&
    ((forall path :: path in before ==> before[path] != {}) ==> forall path :: path in after ==> after[path] != {})
  }

  function At(path: Option<string>, lines: set<int>): Pairs {
    if path.None? then {} else set line | line in lines :: (path.value, line)
  }

  lemma GrownTwice(a: UnifiedDiff.Lines, b: UnifiedDiff.Lines, c: UnifiedDiff.Lines, s: Pairs, t: Pairs)
    requires Grown(a, b, s) && Grown(b, c, t)
    ensures Grown(a, c, s + t)
  {
  }

  lemma AtBoth(path: Option<string>, a: set<int>, b: set<int>)
    ensures At(path, a) + At(path, b) == At(path, a + b)
  {
  }

  lemma RecordGrows(lines: UnifiedDiff.Lines, path: Option<string>, line: int)
    ensures Grown(lines, Record(lines, path, line), At(path, {line}))
  {
  }

  lemma {:induction false} ReadRowsInTwo(r: Reading, a: seq<string>, b: seq<string>)
    ensures ReadRows(r, a + b) == ReadRows(ReadRows(r, a), b)
    decreases |b|
  {
    if b == [] {
      assert a + b == a;
    } else {
      ReadRowsInTwo(r, a, b[..|b| - 1]);
      assert (a + b)[..|a + b| - 1] == a + b[..|b| - 1];
    }
  }

  lemma ReadOne(r: Reading, row: string)
    ensures ReadRows(r, [row]) == ReadRow(r, row)
  {
  }

  lemma ReadFirst(r: Reading, rows: seq<string>)
    requires rows != []
    ensures ReadRows(r, rows) == ReadRows(ReadRow(r, rows[0]), rows[1..])
  {
    ReadRowsInTwo(r, [rows[0]], rows[1..]);
    ReadOne(r, rows[0]);
    assert rows == [rows[0]] + rows[1..];
  }

  // ---- Rows as the parser sees them ----

  /** With or without a carriage return at its end. */
  predicate Shows(seen: string, row: string) {
    seen == row || seen == StripCr(row)
  }

  predicate AllShow(seen: seq<string>, rows: seq<string>) {
    |seen| == |rows| && forall k :: 0 <= k < |rows| ==> Shows(seen[k], rows[k])
  }

  lemma MarkerShows(seen: string, row: Row)
    requires Shows(seen, RowText(row))
    ensures Marker(seen) == if row.Bare? || row.Context? then ' ' else if row.Added? then '+' else if row.Removed? then '-' else '\\'
    ensures IsHunkRow(seen)
  {
  }

  lemma RemarkIsInert(at: Cursor, seen: string)
    requires Marker(seen) == '\\'
    ensures OutsideHunk(at, seen) == at
  {
  }

  /** The reader inside a hunk that still has just these rows to come. */
  predicate Expects(at: Cursor, rows: seq<Row>) {
    at.oldLeft == OldCount(rows) && at.newLeft == NewCount(rows)
  }

  lemma RowIsRead(r: Reading, rows: seq<Row>, seen: string)
    requires rows != [] && Expects(r.at, rows) && Shows(seen, RowText(rows[0]))
    ensures var next := ReadRow(r, seen);
            Expects(next.at, rows[1..]) && next.at.path == r.at.path &&
            next.at.line == r.at.line + (if rows[0].Removed? || rows[0].Remark? then 0 else 1) &&
            Grown(r.added, next.added, if rows[0].Added? then At(r.at.path, {r.at.line}) else {})
  {
    MarkerShows(seen, rows[0]);
    RecordGrows(r.added, r.at.path, r.at.line);
    if rows[0].Remark? {
      RemarkIsInert(r.at, seen);
    }
  }

  lemma {:induction false} RowsAreRead(r: Reading, rows: seq<Row>, seen: seq<string>)
    requires Expects(r.at, rows) && AllShow(seen, RowTexts(rows))
    ensures var next := ReadRows(r, seen);
            Expects(next.at, []) && next.at.path == r.at.path &&
            Grown(r.added, next.added, At(r.at.path, AddedIn(rows, r.at.line)))
    decreases |rows|
  {
    if rows != [] {
      RowIsRead(r, rows, seen[0]);
      ReadFirst(r, seen);
      var next := ReadRow(r, seen[0]);
      RowsAreRead(next, rows[1..], seen[1..]);
      RowsAdd(r, next, ReadRows(r, seen), rows);
    }
  }

  lemma RowsAdd(r: Reading, next: Reading, last: Reading, rows: seq<Row>)
    requires rows != []
    requires next.at.line == r.at.line + (if rows[0].Removed? || rows[0].Remark? then 0 else 1)
    requires Grown(r.added, next.added, if rows[0].Added? then At(r.at.path, {r.at.line}) else {})
    requires Grown(next.added, last.added, At(r.at.path, AddedIn(rows[1..], next.at.line)))
    ensures Grown(r.added, last.added, At(r.at.path, AddedIn(rows, r.at.line)))
  {
  }

  // ---- Hunk headers ----

  lemma {:induction false} FirstIndex(s: string, sought: string, from: nat, at: nat)
    requires from <= at <= |s| && sought <= s[at..]
    requires forall i :: from <= i < at ==> !(sought <= s[i..])
    ensures IndexOf(s, sought, from) == Some(at)
    decreases at - from
  {
    if from < at {
      FirstIndex(s, sought, from + 1, at);
    }
  }

  lemma RangeIsRead(start: nat, count: nat, full: bool)
    ensures ReadRange(RangeText(start, count, full)) == Some(Range(start, count))
    ensures ' ' !in RangeText(start, count, full)
  {
    ValueOfPrint(start);
    ValueOfPrint(count);
    if count == 1 && !full {
      SplitOne(Print(start), ',');
      assert Value("1") == Value("1"[..0]) * 10 + 1;
    } else {
      CountedRange(Print(start), Print(count));
    }
  }

  lemma CountedRange(start: string, count: string)
    requires start != "" && AllDigits(start) && count != "" && AllDigits(count)
    ensures ReadRange(start + "," + count) == Some(Range(Value(start), Value(count)))
  {
    assert start + [','] + count == start + "," + count;
    SplitAt(start, ',', count);
    SplitOne(count, ',');
  }

  /** No space before the closing one has an at sign behind it. */
  lemma NotTheClose(before: string, after: string, tail: string, i: nat)
    requires ' ' !in before && ' ' !in after && 4 <= i < 4 + |before| + 2 + |after|
    ensures !(" @@" <= ("@@ -" + before + " +" + after + " @@" + tail)[i..])
  {
    var row := "@@ -" + before + " +" + after + " @@" + tail;
    var from := row[i..];
    assert |from| > 1 && from[0] == row[i] && from[1] == row[i + 1];
    if i == 4 + |before| {
      assert row[i + 1] == '+' && " @@"[1] == '@';
    } else {
      assert row[i] != ' ' by {
        assert i < 4 + |before| ==> row[i] == before[i - 4];
        assert i > 4 + |before| + 1 ==> row[i] == after[i - 6 - |before|];
      }
      assert " @@"[0] == ' ';
    }
  }

  lemma CloseIsFound(before: string, after: string, tail: string)
    requires ' ' !in before && ' ' !in after
    ensures IndexOf("@@ -" + before + " +" + after + " @@" + tail, " @@", 4) == Some(4 + |before| + 2 + |after|)
  {
    var row := "@@ -" + before + " +" + after + " @@" + tail;
    var close := 4 + |before| + 2 + |after|;
    assert row[close..] == " @@" + tail;
    forall i | 4 <= i < close
      ensures !(" @@" <= row[i..])
    {
      NotTheClose(before, after, tail, i);
    }
    FirstIndex(row, " @@", 4, close);
  }

  lemma RangesAreSplit(before: string, after: string)
    requires ' ' !in before && ' ' !in after
    ensures Split(before + " +" + after, ' ') == [before, "+" + after]
  {
    SplitAt(before, ' ', "+" + after);
    SplitOne("+" + after, ' ');
    assert before + " +" + after == before + [' '] + ("+" + after);
  }

  lemma HeaderIsRead(before: string, after: string, tail: string, old_: Range, new_: Range)
    requires ReadRange(before) == Some(old_) && ReadRange(after) == Some(new_)
    requires ' ' !in before && ' ' !in after
    ensures ReadHunk("@@ -" + before + " +" + after + " @@" + tail) == Some(HunkHeader(old_.count, new_.start, new_.count))
  {
    var row := "@@ -" + before + " +" + after + " @@" + tail;
    CloseIsFound(before, after, tail);
    assert row[4..4 + |before| + 2 + |after|] == before + " +" + after;
    RangesAreSplit(before, after);
    assert ("+" + after)[1..] == after;
  }

  lemma HunkIsRead(h: Hunk, seen: string)
    requires Shows(seen, HunkText(h))
    ensures ReadHunk(seen) == Some(HunkHeader(OldCount(h.rows), h.newStart, NewCount(h.rows)))
    ensures Marker(seen) == '@'
  {
    var before := RangeText(h.oldStart, OldCount(h.rows), h.full);
    var after := RangeText(h.newStart, NewCount(h.rows), h.full);
    RangeIsRead(h.oldStart, OldCount(h.rows), h.full);
    RangeIsRead(h.newStart, NewCount(h.rows), h.full);
    var front := "@@ -" + before + " +" + after + " @@";
    assert front[|front| - 1] == '@';
    var tail := if seen == HunkText(h) then h.heading else h.heading[..|h.heading| - 1];
    assert seen == front + tail;
    HeaderIsRead(before, after, tail, Range(h.oldStart, OldCount(h.rows)), Range(h.newStart, NewCount(h.rows)));
  }

  lemma HunkStarts(r: Reading, h: Hunk, seen: string)
    requires Expects(r.at, []) && Shows(seen, HunkText(h))
    ensures ReadRow(r, seen) == r.(at := Cursor(r.at.path, OldCount(h.rows), NewCount(h.rows), h.newStart))
  {
    HunkIsRead(h, seen);
    assert !StartsWith(seen, "diff --git ") by { assert "diff --git "[0] == 'd'; }
    assert !StartsWith(seen, "+++ ") by { assert "+++ "[0] == '+'; }
  }

  function HunksAdd(hunks: seq<Hunk>): set<int> {
    if hunks == [] then {} else AddedIn(hunks[0].rows, hunks[0].newStart) + HunksAdd(hunks[1..])
  }

  lemma HunkRowsAreRead(r: Reading, h: Hunk, seen: seq<string>)
    requires Expects(r.at, []) && AllShow(seen, [HunkText(h)] + RowTexts(h.rows))
    ensures var next := ReadRows(r, seen);
            Expects(next.at, []) && next.at.path == r.at.path &&
            Grown(r.added, next.added, At(r.at.path, AddedIn(h.rows, h.newStart)))
  {
    hide *;
    FirstShows(seen, HunkText(h), RowTexts(h.rows));
    ReadFirst(r, seen);
    HunkStarts(r, h, seen[0]);
    var started := ReadRow(r, seen[0]);
    NowExpects(started.at, h.rows);
    RowsAreRead(started, h.rows, seen[1..]);
  }

  lemma FirstShows(seen: seq<string>, first: string, rest: seq<string>)
    requires AllShow(seen, [first] + rest)
    ensures seen != [] && Shows(seen[0], first) && AllShow(seen[1..], rest)
  {
    assert ([first] + rest)[1..] == rest;
  }

  lemma NowExpects(at: Cursor, rows: seq<Row>)
    requires at.oldLeft == OldCount(rows) && at.newLeft == NewCount(rows)
    ensures Expects(at, rows)
  {
  }

  lemma ShowSplits(seen: seq<string>, a: seq<string>, b: seq<string>)
    requires AllShow(seen, a + b)
    ensures |seen| == |a| + |b| && AllShow(seen[..|a|], a) && AllShow(seen[|a|..], b)
    ensures seen == seen[..|a|] + seen[|a|..]
  {
  }

  lemma {:induction false} HunksAreRead(r: Reading, hunks: seq<Hunk>, seen: seq<string>)
    requires Expects(r.at, []) && AllShow(seen, HunksTexts(hunks))
    ensures var next := ReadRows(r, seen);
            Expects(next.at, []) && Grown(r.added, next.added, At(r.at.path, HunksAdd(hunks)))
    decreases |hunks|
  {
    if hunks != [] {
      var first := [HunkText(hunks[0])] + RowTexts(hunks[0].rows);
      ShowSplits(seen, first, HunksTexts(hunks[1..]));
      ReadRowsInTwo(r, seen[..|first|], seen[|first|..]);
      HunkRowsAreRead(r, hunks[0], seen[..|first|]);
      var between := ReadRows(r, seen[..|first|]);
      HunksAreRead(between, hunks[1..], seen[|first|..]);
      var here, there := AddedIn(hunks[0].rows, hunks[0].newStart), HunksAdd(hunks[1..]);
      GrownTwice(r.added, between.added, ReadRows(r, seen).added, At(r.at.path, here), At(r.at.path, there));
      AtBoth(r.at.path, here, there);
    }
  }

  // ---- Files ----

  function FileAdds(f: File): Pairs {
    if f.header.None? then {} else At(HeaderPath(f.header.value.new_), HunksAdd(f.hunks))
  }

  function DiffAdds(files: seq<File>): Pairs {
    if files == [] then {} else FileAdds(files[0]) + DiffAdds(files[1..])
  }

  lemma GitRowIsRead(r: Reading, git: string, seen: string)
    requires Expects(r.at, []) && Shows(seen, "diff --git " + git)
    ensures ReadRow(r, seen) == r.(at := r.at.(path := None))
  {
  }

  lemma {:induction false} ExtendedAreRead(r: Reading, extended: seq<string>, seen: seq<string>)
    requires Expects(r.at, []) && AllShow(seen, extended)
    requires forall k :: 0 <= k < |extended| ==> Inert(extended[k])
    ensures Expects(ReadRows(r, seen).at, []) && ReadRows(r, seen).added == r.added
    decreases |extended|
  {
    if extended != [] {
      ReadFirst(r, seen);
      ExtendedAreRead(ReadRow(r, seen[0]), extended[1..], seen[1..]);
    }
  }

  lemma HeadersAreRead(r: Reading, header: Header, seen: seq<string>)
    requires Expects(r.at, []) && AllShow(seen, ["--- " + header.old_, "+++ " + header.new_]) && !EndsWith(header.new_, '\r')
    ensures ReadRows(r, seen) == r.(at := r.at.(path := HeaderPath(header.new_)))
  {
    ReadFirst(r, seen);
    assert seen[1..] == [seen[1]];
    OldHeaderIsInert(r.at, seen[0]);
    ReadOne(r, seen[1]);
    var row := "+++ " + header.new_;
    assert row[4..] == header.new_ && seen[1] == row;
    assert !StartsWith(row, "diff --git ") by { assert "diff --git "[0] == 'd'; }
  }

  lemma OldHeaderIsInert(at: Cursor, seen: string)
    requires StartsWith(seen, "--- ")
    ensures OutsideHunk(at, seen) == at
  {
    assert seen[0] == '-';
    assert !StartsWith(seen, "diff --git ") by { assert "diff --git "[0] == 'd'; }
    assert !StartsWith(seen, "+++ ") by { assert "+++ "[0] == '+'; }
    assert !StartsWith(seen, "@@ -") by { assert "@@ -"[0] == '@'; }
  }

  function GitTexts(f: File): seq<string> {
    if f.git.None? then [] else ["diff --git " + f.git.value]
  }

  function BodyTexts(f: File): seq<string> {
    if f.header.None? then [] else ["--- " + f.header.value.old_, "+++ " + f.header.value.new_] + HunksTexts(f.hunks)
  }

  lemma GitIsRead(r: Reading, f: File, seen: seq<string>)
    requires Expects(r.at, []) && AllShow(seen, GitTexts(f))
    ensures Expects(ReadRows(r, seen).at, []) && ReadRows(r, seen).added == r.added
  {
    if f.git.Some? {
      assert seen == [seen[0]];
      ReadOne(r, seen[0]);
      GitRowIsRead(r, f.git.value, seen[0]);
    }
  }

  lemma TopIsRead(r: Reading, f: File, seen: seq<string>)
    requires Expects(r.at, []) && FileOk(f) && AllShow(seen, GitTexts(f) + f.extended)
    ensures Expects(ReadRows(r, seen).at, []) && ReadRows(r, seen).added == r.added
  {
    var n := |GitTexts(f)|;
    ShowSplits(seen, GitTexts(f), f.extended);
    ReadRowsInTwo(r, seen[..n], seen[n..]);
    GitIsRead(r, f, seen[..n]);
    ExtendedAreRead(ReadRows(r, seen[..n]), f.extended, seen[n..]);
  }

  lemma FileIsRead(r: Reading, f: File, seen: seq<string>)
    requires Expects(r.at, []) && FileOk(f) && AllShow(seen, FileTexts(f))
    ensures var next := ReadRows(r, seen);
            Expects(next.at, []) && Grown(r.added, next.added, FileAdds(f))
  {
    var top := GitTexts(f) + f.extended;
    assert FileTexts(f) == top + BodyTexts(f);
    ShowSplits(seen, top, BodyTexts(f));
    ReadRowsInTwo(r, seen[..|top|], seen[|top|..]);
    TopIsRead(r, f, seen[..|top|]);
    var between := ReadRows(r, seen[..|top|]);
    if f.header.Some? {
      BodyIsRead(between, f.header.value, f.hunks, seen[|top|..]);
    } else {
      assert seen[|top|..] == [];
    }
  }

  lemma BodyIsRead(r: Reading, header: Header, hunks: seq<Hunk>, seen: seq<string>)
    requires Expects(r.at, []) && !EndsWith(header.new_, '\r')
    requires AllShow(seen, ["--- " + header.old_, "+++ " + header.new_] + HunksTexts(hunks))
    ensures var next := ReadRows(r, seen);
            Expects(next.at, []) && Grown(r.added, next.added, At(HeaderPath(header.new_), HunksAdd(hunks)))
  {
    var headers := ["--- " + header.old_, "+++ " + header.new_];
    ShowSplits(seen, headers, HunksTexts(hunks));
    ReadRowsInTwo(r, seen[..2], seen[2..]);
    HeadersAreRead(r, header, seen[..2]);
    HunksAreRead(r.(at := r.at.(path := HeaderPath(header.new_))), hunks, seen[2..]);
  }

  lemma {:induction false} DiffIsRead(r: Reading, files: seq<File>, seen: seq<string>)
    requires Expects(r.at, []) && (forall k :: 0 <= k < |files| ==> FileOk(files[k])) && AllShow(seen, DiffTexts(files))
    ensures var next := ReadRows(r, seen);
            Expects(next.at, []) && Grown(r.added, next.added, DiffAdds(files))
    decreases |files|
  {
    if files != [] {
      var first := FileTexts(files[0]);
      ShowSplits(seen, first, DiffTexts(files[1..]));
      ReadRowsInTwo(r, seen[..|first|], seen[|first|..]);
      FileIsRead(r, files[0], seen[..|first|]);
      var between := ReadRows(r, seen[..|first|]);
      DiffIsRead(between, files[1..], seen[|first|..]);
      GrownTwice(r.added, between.added, ReadRows(r, seen).added, FileAdds(files[0]), DiffAdds(files[1..]));
    }
  }

  // ---- What the pairs mean ----

  lemma {:induction false} HunksAddExactly(hunks: seq<Hunk>, line: int)
    ensures line in HunksAdd(hunks) <==> exists h :: h in hunks && line in AddedIn(h.rows, h.newStart)
  {
    if hunks != [] {
      HunksAddExactly(hunks[1..], line);
      assert hunks == [hunks[0]] + hunks[1..];
    }
  }

  lemma {:induction false} DiffAddsExactly(files: seq<File>, path: string, line: int)
    ensures (path, line) in DiffAdds(files) <==> exists f :: f in files && Adds(f, path, line)
  {
    if files != [] {
      DiffAddsExactly(files[1..], path, line);
      HunksAddExactly(files[0].hunks, line);
      assert files == [files[0]] + files[1..];
      assert (path, line) in FileAdds(files[0]) <==> Adds(files[0], path, line);
    }
  }

  // ---- The results ----

  lemma PrintedIsShown(rows: seq<string>, crlf: bool)
    requires forall k :: 0 <= k < |rows| ==> '\n' !in rows[k]
    ensures var seen := StrippedRows(Split(Text.Lines(rows, if crlf then "\r\n" else "\n"), '\n'));
            |seen| == |rows| + 1 && seen[|rows|] == "" && AllShow(seen[..|rows|], rows)
  {
    if crlf {
      CrLfLines(rows);
      SplitRaw(WithCr(rows));
      assert forall k :: 0 <= k < |rows| ==> StripCr(WithCr(rows)[k]) == rows[k];
    } else {
      SplitRaw(rows);
    }
  }

  lemma GrownFromNothing(files: seq<File>, lines: UnifiedDiff.Lines)
    requires Grown(map[], lines, DiffAdds(files))
    ensures IsAddedLines(files, lines)
  {
    forall path, line: int
      ensures Has(lines, path, line) <==> exists f :: f in files && Adds(f, path, line)
    {
      DiffAddsExactly(files, path, line);
    }
  }

  lemma EmptyRowIsInert(r: Reading)
    requires Expects(r.at, [])
    ensures ReadRow(r, "") == r
  {
  }

  lemma ShownIsRead(files: seq<File>, seen: seq<string>)
    requires forall k :: 0 <= k < |files| ==> FileOk(files[k])
    requires |seen| == |DiffTexts(files)| + 1 && seen[|seen| - 1] == "" && AllShow(seen[..|seen| - 1], DiffTexts(files))
    ensures Grown(map[], ReadRows(START, seen).added, DiffAdds(files))
  {
    DiffIsRead(START, files, seen[..|seen| - 1]);
    EmptyRowIsInert(ReadRows(START, seen[..|seen| - 1]));
  }

  /** For every diff that may be printed, by git or by plain `diff -u` or the two mixed, whatever its
      rows contain and with either end of line, parsing gives back exactly the new-file numbers of the added lines, per path. */
  lemma ParserInvertsPrinter(files: seq<File>, crlf: bool)
    requires Printable(files)
    ensures IsAddedLines(files, Parsed(Printed(files, crlf)))
  {
    hide *;
    var seen := StrippedRows(Split(Printed(files, crlf), '\n'));
    PrintableMeans(files, crlf);
    PrintedIsShown(DiffTexts(files), crlf);
    assert seen[..|seen| - 1] == seen[..|DiffTexts(files)|];
    ShownIsRead(files, seen);
    GrownFromNothing(files, ReadRows(START, seen).added);
  }

  lemma PrintableMeans(files: seq<File>, crlf: bool)
    requires Printable(files)
    ensures forall k :: 0 <= k < |files| ==> FileOk(files[k])
    ensures forall k :: 0 <= k < |DiffTexts(files)| ==> '\n' !in DiffTexts(files)[k]
    ensures Printed(files, crlf) == Text.Lines(DiffTexts(files), if crlf then "\r\n" else "\n")
    ensures Parsed(Printed(files, crlf)) == ReadRows(START, StrippedRows(Split(Printed(files, crlf), '\n'))).added
  {
  }

  /** A path the printer need not quote: git's `b/` prefix goes and nothing else changes. */
  predicate IsCleanPath(path: string) {
    path != "" && !IsSpace(path[|path| - 1]) && path[0] != '/' &&
    (forall k :: 0 <= k < |path| ==> path[k] != '\t' && path[k] != '\\') &&
    forall k :: 0 <= k < |path| - 1 ==> !(path[k] == '/' && path[k + 1] == '/')
  }

  lemma {:induction false} NothingCollapses(s: string)
    requires forall k :: 0 <= k < |s| - 1 ==> !(s[k] == '/' && s[k + 1] == '/')
    ensures Collapsed(s) == s
  {
    if |s| >= 2 {
      NothingCollapses(s[1..]);
    }
  }

  lemma CleanPathIsNormal(path: string)
    requires IsCleanPath(path)
    ensures NormalisedPath("b/" + path) == path
  {
    var shown := "b/" + path;
    assert Slashed(shown) == shown;
    NothingCollapses(shown);
    assert Trim(shown) == shown;
    assert !StartsWith(shown, "./") && StartsWith(shown, "b/") && shown[2..] == path;
  }

  lemma CleanHeader(path: string, more: string)
    requires IsCleanPath(path) && Split("b/" + path + more, '\t')[0] == "b/" + path
    ensures HeaderPath("b/" + path + more) == Some(path)
  {
    CleanPathIsNormal(path);
    assert Trim("b/" + path) == "b/" + path;
    assert ("b/" + path)[0] == 'b' && "/dev/null"[0] == '/';
  }

  /** The header `+++ b/<path>`, with or without a tab and more after it, names that path. */
  lemma CleanPathIsItsOwnKey(path: string, more: string)
    requires IsCleanPath(path)
    ensures HeaderPath("b/" + path) == HeaderPath("b/" + path + "\t" + more) == Some(path)
  {
    var shown := "b/" + path;
    SplitOne(shown, '\t');
    assert shown + "" == shown;
    CleanHeader(path, "");
    SplitAt(shown, '\t', more);
    assert shown + ['\t'] + more == shown + ("\t" + more) == shown + "\t" + more;
    CleanHeader(path, "\t" + more);
  }
}
