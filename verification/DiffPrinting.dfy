/** Printing changes in unified format, and that the parser inverts it whatever the rows contain. */
module DiffPrinting {
  import opened Wrappers
  import opened Text
  import opened Decimal
  import opened UnifiedDiff

  // ---- What is printed ----

  /** `Bare` is an empty context line whose leading space was lost; `Remark` is a "\ No newline" row. */
  datatype Row = Context(text: string) | Bare | Added(text: string) | Removed(text: string) | Remark(text: string)

  /** `full` prints a count of one, which is otherwise left out. */
  datatype Hunk = Hunk(oldStart: nat, newStart: nat, full: bool, heading: string, rows: seq<Row>)

  datatype Header = Header(old_: string, new_: string)

  /** `git` is what follows `diff --git ` in the row git begins a file with; plain `diff -u` output
      has no such row. A file with no header is a binary file, a pure rename or a mode change. */
  datatype File = File(git: Option<string>, extended: seq<string>, header: Option<Header>, hunks: seq<Hunk>)

  function OldCount(rows: seq<Row>): nat {
    if rows == [] then 0 else (if rows[0].Context? || rows[0].Bare? || rows[0].Removed? then 1 else 0) + OldCount(rows[1..])
  }

  function NewCount(rows: seq<Row>): nat {
    if rows == [] then 0 else (if rows[0].Context? || rows[0].Bare? || rows[0].Added? then 1 else 0) + NewCount(rows[1..])
  }

  function RowText(row: Row): string {
    match row
    case Context(text) => " " + text
    case Bare => ""
    case Added(text) => "+" + text
    case Removed(text) => "-" + text
    case Remark(text) => "\\" + text
  }

  function RowTexts(rows: seq<Row>): (texts: seq<string>)
    ensures |texts| == |rows| && forall k :: 0 <= k < |rows| ==> texts[k] == RowText(rows[k])
  {
    seq(|rows|, k requires 0 <= k < |rows| => RowText(rows[k]))
  }

  function RangeText(start: nat, count: nat, full: bool): string {
    if count == 1 && !full then Print(start) else Print(start) + "," + Print(count)
  }

  function HunkText(h: Hunk): string {
    "@@ -" + RangeText(h.oldStart, OldCount(h.rows), h.full) + " +" + RangeText(h.newStart, NewCount(h.rows), h.full) + " @@" + h.heading
  }

  function HunksTexts(hunks: seq<Hunk>): seq<string> {
    if hunks == [] then [] else [HunkText(hunks[0])] + RowTexts(hunks[0].rows) + HunksTexts(hunks[1..])
  }

  function FileTexts(f: File): seq<string> {
    (if f.git.None? then [] else ["diff --git " + f.git.value]) + f.extended +
    if f.header.None? then [] else ["--- " + f.header.value.old_, "+++ " + f.header.value.new_] + HunksTexts(f.hunks)
  }

  function DiffTexts(files: seq<File>): seq<string> {
    if files == [] then [] else FileTexts(files[0]) + DiffTexts(files[1..])
  }

  function Printed(files: seq<File>, crlf: bool): string {
    Text.Lines(DiffTexts(files), if crlf then "\r\n" else "\n")
  }

  /** Not a header the parser acts on, with or without a carriage return at its end. */
  predicate Inert(row: string) {
    !StartsWith(row, "+++ ") && ReadHunk(row).None? && ReadHunk(StripCr(row)).None?
  }

  /** What is printed before a file's headers is not itself a header; only git prints a file
      without headers. */
  predicate FileOk(f: File) {
    (f.git.None? ==> f.header.Some?) &&
    (forall k :: 0 <= k < |f.extended| ==> Inert(f.extended[k])) && (f.header.Some? ==> !EndsWith(f.header.value.new_, '\r'))
  }

  /** A diff as it may be printed: its rows hold no line feed. */
  predicate Printable(files: seq<File>) {
    (forall k :: 0 <= k < |DiffTexts(files)| ==> '\n' !in DiffTexts(files)[k]) && forall k :: 0 <= k < |files| ==> FileOk(files[k])
  }

  // ---- What it means ----

  /** The new-file numbers of the added rows, the first row being line `line` of the new file. */
  function AddedIn(rows: seq<Row>, line: int): set<int> {
    if rows == [] then {}
    else
      match rows[0]
      case Added(_) => {line} + AddedIn(rows[1..], line + 1)
      case Context(_) => AddedIn(rows[1..], line + 1)
      case Bare => AddedIn(rows[1..], line + 1)
      case Removed(_) => AddedIn(rows[1..], line)
      case Remark(_) => AddedIn(rows[1..], line)
  }

  predicate Adds(f: File, path: string, line: int) {
    f.header.Some? && HeaderPath(f.header.value.new_) == Some(path) &&
    exists h :: h in f.hunks && line in AddedIn(h.rows, h.newStart)
  }

  /** The added lines of the diff, per path; a path without any is not a key. */
  ghost predicate IsAddedLines(files: seq<File>, lines: UnifiedDiff.Lines) {
    (forall path, line: int :: Has(lines, path, line) <==> exists f :: f in files && Adds(f, path, line)) &&
    forall path :: path in lines ==> lines[path] != {}
  }
}
