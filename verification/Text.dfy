/** The string operations the sources share, as ECMAScript defines them. */
module Text {
  import opened Wrappers

  predicate StartsWith(s: string, prefix: string) {
    prefix <= s
  }

  predicate EndsWith(s: string, c: char) {
    s != "" && s[|s| - 1] == c
  }

  function Split(s: string, separator: char): (parts: seq<string>)
    ensures |parts| >= 1
  {
    if s == "" then [""]
    else
      var parts := Split(s[1..], separator);
      if s[0] == separator then [""] + parts else [[s[0]] + parts[0]] + parts[1..]
  }

  function IndexOf(s: string, sought: string, from: nat): Option<nat>
    decreases |s| - from
  {
    if from > |s| then None
    else if sought <= s[from..] then Some(from)
    else if from == |s| then None
    else IndexOf(s, sought, from + 1)
  }

  /** One carriage return at the end goes. */
  function StripCr(s: string): string {
    if EndsWith(s, '\r') then s[..|s| - 1] else s
  }

  function StrippedRows(rows: seq<string>): (stripped: seq<string>)
    ensures |stripped| == |rows| && forall k :: 0 <= k < |rows| ==> stripped[k] == StripCr(rows[k])
  {
    seq(|rows|, k requires 0 <= k < |rows| => StripCr(rows[k]))
  }

  /** Backslashes are directory separators. */
  function Slashed(s: string): (r: string)
    ensures |r| == |s| && forall k :: 0 <= k < |s| ==> r[k] == if s[k] == '\\' then '/' else s[k]
  {
    seq(|s|, k requires 0 <= k < |s| => if s[k] == '\\' then '/' else s[k])
  }

  // White space and line terminators, sections 12.2 and 12.3 of ECMA-262.
  predicate IsSpace(c: char) {
    c == '\t' || c == '\n' || c == '\U{0B}' || c == '\U{0C}' || c == '\r' || c == ' ' || c == '\U{A0}' || c == '\U{1680}' ||
    '\U{2000}' <= c <= '\U{200A}' || c == '\U{2028}' || c == '\U{2029}' || c == '\U{202F}' || c == '\U{205F}' ||
    c == '\U{3000}' || c == '\U{FEFF}'
  }

  /** By number: tab to carriage return, space, no-break spaces, the spaces of category Zs, the line
      and paragraph separators, and the byte order mark. */
  lemma SpacesAre(c: char)
    ensures IsSpace(c) <==>
            c as int in {0x9, 0xA, 0xB, 0xC, 0xD, 0x20, 0xA0, 0x1680, 0x2000, 0x2001, 0x2002, 0x2003, 0x2004, 0x2005, 0x2006,
                         0x2007, 0x2008, 0x2009, 0x200A, 0x2028, 0x2029, 0x202F, 0x205F, 0x3000, 0xFEFF}
  {
  }

  function Trim(s: string): string {
    if s == "" then s
    else if IsSpace(s[0]) then Trim(s[1..])
    else if IsSpace(s[|s| - 1]) then Trim(s[..|s| - 1])
    else s
  }

  /** Rows, each with its end of line. */
  function Lines(rows: seq<string>, eol: string): string {
    if rows == [] then "" else rows[0] + eol + Lines(rows[1..], eol)
  }

  lemma {:induction false} SplitAt(a: string, separator: char, rest: string)
    requires separator !in a
    ensures Split(a + [separator] + rest, separator) == [a] + Split(rest, separator)
  {
    if a == "" {
      assert ([separator] + rest)[1..] == rest;
      assert a + [separator] + rest == [separator] + rest;
    } else {
      SplitAt(a[1..], separator, rest);
      assert (a + [separator] + rest)[1..] == a[1..] + [separator] + rest;
      assert a == [a[0]] + a[1..];
    }
  }

  lemma {:induction false} SplitOne(a: string, separator: char)
    requires separator !in a
    ensures Split(a, separator) == [a]
  {
    if a != "" {
      SplitOne(a[1..], separator);
      assert a == [a[0]] + a[1..];
    }
  }

  /** Splitting terminated lines gives back the rows, and the empty rest after the last. */
  lemma {:induction false} SplitRaw(raws: seq<string>)
    requires forall k :: 0 <= k < |raws| ==> '\n' !in raws[k]
    ensures Split(Lines(raws, "\n"), '\n') == raws + [""]
  {
    if raws != [] {
      SplitRaw(raws[1..]);
      SplitAt(raws[0], '\n', Lines(raws[1..], "\n"));
      assert raws + [""] == [raws[0]] + (raws[1..] + [""]);
    }
  }

  function WithCr(rows: seq<string>): (raws: seq<string>)
    ensures |raws| == |rows| && forall k :: 0 <= k < |rows| ==> raws[k] == rows[k] + "\r"
  {
    seq(|rows|, k requires 0 <= k < |rows| => rows[k] + "\r")
  }

  lemma {:induction false} CrLfLines(rows: seq<string>)
    ensures Lines(rows, "\r\n") == Lines(WithCr(rows), "\n")
  {
    if rows != [] {
      CrLfLines(rows[1..]);
      assert WithCr(rows)[1..] == WithCr(rows[1..]);
      assert "\r" + "\n" == "\r\n";
      assert rows[0] + "\r" + "\n" == rows[0] + "\r\n";
    }
  }
}
