/** Reading a unified diff: added lines per file, by their number in the new file. */
module UnifiedDiff {
  import opened Wrappers
  import opened Text
  import opened Decimal

  type Lines = map<string, set<int>>

  predicate Has(lines: Lines, path: string, line: int) {
    path in lines && line in lines[path]
  }

  // ---- Paths ----

  function Collapsed(s: string): string {
    if |s| < 2 then s
    else if s[0] == '/' && s[1] == '/' then Collapsed(s[1..])
    else [s[0]] + Collapsed(s[1..])
  }

  function WithoutDots(s: string): string {
    if StartsWith(s, "./") then WithoutDots(s[2..]) else s
  }

  function NormalisedPath(path: string): string {
    var clean := WithoutDots(Collapsed(Slashed(Trim(path))));
    if StartsWith(clean, "a/") || StartsWith(clean, "b/") then clean[2..] else clean
  }

  /** The path a `+++ ` header names; None is the null device of a deleted file. */
  function HeaderPath(rest: string): Option<string> {
    var shown := Trim(Split(rest, '\t')[0]);
    var path := if |shown| >= 2 && shown[0] == '"' && EndsWith(shown, '"') then shown[1..|shown| - 1] else shown;
    if path == "/dev/null" then None else Some(NormalisedPath(path))
  }

  // ---- Hunk headers ----

  datatype Range = Range(start: nat, count: nat)

  datatype HunkHeader = HunkHeader(oldCount: nat, newStart: nat, newCount: nat)

  function ReadRange(text: string): Option<Range> {
    var parts := Split(text, ',');
    var count := if |parts| > 1 then parts[1] else "1";
    if |parts| > 2 || parts[0] == "" || !AllDigits(parts[0]) || count == "" || !AllDigits(count) then None
    else Some(Range(Value(parts[0]), Value(count)))
  }

  function ReadHunk(row: string): Option<HunkHeader> {
    if !StartsWith(row, "@@ -") then None
    else
      var close := IndexOf(row, " @@", 4);
      if close.None? || close.value > |row| || close.value < 4 then None
      else
        var parts := Split(row[4..close.value], ' ');
        if |parts| != 2 || !StartsWith(parts[1], "+") then None
        else
          var before, after := ReadRange(parts[0]), ReadRange(parts[1][1..]);
          if before.None? || after.None? then None
          else Some(HunkHeader(before.value.count, after.value.start, after.value.count))
  }

  // ---- Reading row by row ----

  datatype Cursor = Cursor(path: Option<string>, oldLeft: int, newLeft: int, line: int)

  /** Where the reader is, and what it has found. */
  datatype Reading = Reading(at: Cursor, added: Lines)

  function RecordAdded(added: Lines, path: string, line: int): Lines {
    var lines := if path in added then added[path] else {};
    added[path := lines + {line}]
  }

  function Record(added: Lines, path: Option<string>, line: int): Lines {
    if path.None? then added else RecordAdded(added, path.value, line)
  }

  function Marker(row: string): char {
    if row == "" then ' ' else row[0]
  }

  predicate IsHunkRow(row: string) {
    Marker(row) in "+- \\"
  }

  function InHunk(r: Reading, row: string): Reading
    requires IsHunkRow(row)
  {
    match Marker(row)
    case '+' => Reading(r.at.(line := r.at.line + 1, newLeft := r.at.newLeft - 1), Record(r.added, r.at.path, r.at.line))
    case '-' => r.(at := r.at.(oldLeft := r.at.oldLeft - 1))
    case ' ' => r.(at := r.at.(oldLeft := r.at.oldLeft - 1, newLeft := r.at.newLeft - 1, line := r.at.line + 1))
    case _ => r
  }

  function OutsideHunk(at: Cursor, row: string): Cursor {
    if StartsWith(row, "diff --git ") then at.(path := None)
    else if StartsWith(row, "+++ ") then at.(path := HeaderPath(row[4..]))
    else
      var hunk := ReadHunk(row);
      if hunk.None? then at
      else at.(oldLeft := hunk.value.oldCount, line := hunk.value.newStart, newLeft := hunk.value.newCount)
  }

  function ReadRow(r: Reading, row: string): Reading {
    if r.at.oldLeft > 0 || r.at.newLeft > 0 then
      if IsHunkRow(row) then InHunk(r, row) else r.(at := OutsideHunk(r.at.(oldLeft := 0, newLeft := 0), row))
    else r.(at := OutsideHunk(r.at, row))
  }

  function ReadRows(r: Reading, rows: seq<string>): Reading {
    if rows == [] then r else ReadRow(ReadRows(r, rows[..|rows| - 1]), rows[|rows| - 1])
  }

  const START := Reading(Cursor(None, 0, 0, 0), map[])

  function Parsed(text: string): Lines {
    ReadRows(START, StrippedRows(Split(text, '\n'))).added
  }

  // ---- The parser ----

  class DiffCursor {
    var path: Option<string>
    var oldLeft: int
    var newLeft: int
    var line: int

    constructor ()
      ensures At() == START.at
    {
      path, oldLeft, newLeft, line := None, 0, 0, 0;
    }

    ghost function At(): Cursor
      reads this
    {
      Cursor(path, oldLeft, newLeft, line)
    }
  }

  /** False is a row that is no hunk content: it changes nothing, and ends the hunk. */
  method ConsumeHunkRow(cursor: DiffCursor, row: string, added: Lines) returns (consumed: bool, next: Lines)
    modifies cursor
    ensures consumed == IsHunkRow(row)
    ensures Reading(cursor.At(), next) ==
            if consumed then InHunk(Reading(old(cursor.At()), added), row) else Reading(old(cursor.At()), added)
  {
    next := added;
    var marker := if row == "" then ' ' else row[0];
    match marker
    case '+' =>
      if cursor.path.Some? {
        next := RecordAdded(added, cursor.path.value, cursor.line);
      }
      cursor.line := cursor.line + 1;
      cursor.newLeft := cursor.newLeft - 1;
      consumed := true;
    case '-' =>
      cursor.oldLeft := cursor.oldLeft - 1;
      consumed := true;
    case ' ' =>
      cursor.oldLeft := cursor.oldLeft - 1;
      cursor.newLeft := cursor.newLeft - 1;
      cursor.line := cursor.line + 1;
      consumed := true;
    case '\\' =>
      consumed := true;
    case _ =>
      consumed := false;
  }

  method ReadOutsideHunk(cursor: DiffCursor, row: string)
    modifies cursor
    ensures cursor.At() == OutsideHunk(old(cursor.At()), row)
  {
    if StartsWith(row, "diff --git ") {
      cursor.path := None;
      return;
    }
    if StartsWith(row, "+++ ") {
      cursor.path := HeaderPath(row[4..]);
      return;
    }
    var hunk := ReadHunk(row);
    if hunk.Some? {
      cursor.oldLeft := hunk.value.oldCount;
      cursor.line := hunk.value.newStart;
      cursor.newLeft := hunk.value.newCount;
    }
  }

  /** One row: hunk content while the hunk lasts, and otherwise a boundary or a header. */
  method ConsumeRow(cursor: DiffCursor, row: string, added: Lines) returns (next: Lines)
    modifies cursor
    ensures Reading(cursor.At(), next) == ReadRow(Reading(old(cursor.At()), added), row)
  {
    next := added;
    if cursor.oldLeft > 0 || cursor.newLeft > 0 {
      var consumed;
      consumed, next := ConsumeHunkRow(cursor, row, added);
      if consumed {
        return;
      }
      cursor.oldLeft := 0;
      cursor.newLeft := 0;
    }
    ReadOutsideHunk(cursor, row);
  }

  method ParseUnifiedDiff(text: string) returns (added: Lines)
    ensures added == Parsed(text)
  {
    added := map[];
    var cursor := new DiffCursor();
    var raws := Split(text, '\n');
    ghost var rows := StrippedRows(raws);
    var k := 0;
    RowsBegin(START, rows);
    while k < |raws|
      invariant k <= |raws|
      invariant Reading(cursor.At(), added) == ReadRows(START, rows[..k])
    {
      hide *;
      RowsGoOn(START, rows, k);
      added := ConsumeRow(cursor, StripCr(raws[k]), added);
      k := k + 1;
    }
    assert rows[..k] == rows;
  }

  lemma RowsBegin(r: Reading, rows: seq<string>)
    ensures ReadRows(r, rows[..0]) == r
  {
  }

  lemma RowsGoOn(r: Reading, rows: seq<string>, k: nat)
    requires k < |rows|
    ensures ReadRows(r, rows[..k + 1]) == ReadRow(ReadRows(r, rows[..k]), rows[k])
  {
    assert rows[..k + 1][..k] == rows[..k];
  }
}
