/** Which hunk headers and which paths the diff parser reads, and as what. */
module DiffHeaders {
  import opened Wrappers
  import opened Text
  import opened Decimal
  import opened UnifiedDiff
  import opened DiffInversion

  // ---- Hunk headers ----

  /** Digits, read as the number they write. */
  ghost predicate IsNumeral(s: string, n: nat) {
    s != "" && AllDigits(s) && Value(s) == n
  }

  /** `start`, which is one line, or `start,count`. */
  ghost predicate IsRange(text: string, start: nat, count: nat) {
    (IsNumeral(text, start) && count == 1) ||
    exists k :: 0 <= k < |text| && text[k] == ',' && IsNumeral(text[..k], start) && IsNumeral(text[k + 1..], count)
  }

  function JoinedBy(parts: seq<string>, separator: char): string
    requires parts != []
  {
    if |parts| == 1 then parts[0] else parts[0] + [separator] + JoinedBy(parts[1..], separator)
  }

  /** Splitting cuts at the separators and nowhere else. */
  lemma {:induction false} SplitIsCut(s: string, separator: char)
    ensures JoinedBy(Split(s, separator), separator) == s
    ensures forall part :: part in Split(s, separator) ==> separator !in part
  {
    if s != "" {
      SplitIsCut(s[1..], separator);
      var rest, parts := Split(s[1..], separator), Split(s, separator);
      assert s == [s[0]] + s[1..];
      if s[0] == separator {
        assert parts[1..] == rest;
      } else {
        assert parts[1..] == rest[1..];
        assert rest[0] in rest;
      }
    }
  }

  lemma SplitInTwo(s: string, separator: char)
    requires |Split(s, separator)| == 2
    ensures var parts := Split(s, separator);
            s == parts[0] + [separator] + parts[1] && separator !in parts[0] && separator !in parts[1]
  {
    SplitIsCut(s, separator);
    var parts := Split(s, separator);
    assert parts[1..] == [parts[1]] && parts[0] in parts && parts[1] in parts;
  }

  lemma SplitInOne(s: string, separator: char)
    requires |Split(s, separator)| == 1
    ensures Split(s, separator) == [s]
  {
    SplitIsCut(s, separator);
  }

  lemma OneIsOne()
    ensures AllDigits("1") && Value("1") == 1
  {
    assert Value("1") == Value("1"[..0]) * 10 + 1;
  }

  lemma RangeIsReadExactlyWhen(text: string, start: nat, count: nat)
    ensures ReadRange(text) == Some(Range(start, count)) <==> IsRange(text, start, count)
  {
    if ReadRange(text) == Some(Range(start, count)) {
      ReadRangeIsRange(text, start, count);
    }
    if IsRange(text, start, count) {
      RangeIsReadBack(text, start, count);
    }
  }

  lemma ReadRangeIsRange(text: string, start: nat, count: nat)
    requires ReadRange(text) == Some(Range(start, count))
    ensures IsRange(text, start, count)
  {
    OneIsOne();
    var parts := Split(text, ',');
    if |parts| == 1 {
      SplitInOne(text, ',');
    } else {
      SplitInTwo(text, ',');
      var k := |parts[0]|;
      assert text[..k] == parts[0] && text[k] == ',' && text[k + 1..] == parts[1];
    }
  }

  lemma RangeIsReadBack(text: string, start: nat, count: nat)
    requires IsRange(text, start, count)
    ensures ReadRange(text) == Some(Range(start, count))
  {
    if IsNumeral(text, start) && count == 1 {
      SingleIsReadBack(text, start);
    } else {
      hide IsNumeral;
      hide ReadRange;
      var k :| 0 <= k < |text| && text[k] == ',' && IsNumeral(text[..k], start) && IsNumeral(text[k + 1..], count);
      assert text == text[..k] + "," + text[k + 1..];
      PairIsReadBack(text[..k], text[k + 1..], start, count);
    }
  }

  lemma PairIsReadBack(before: string, after: string, start: nat, count: nat)
    requires IsNumeral(before, start) && IsNumeral(after, count)
    ensures ReadRange(before + "," + after) == Some(Range(start, count))
  {
    hide ReadRange;
    CountedRange(before, after);
  }

  lemma SingleIsReadBack(text: string, start: nat)
    requires IsNumeral(text, start)
    ensures ReadRange(text) == Some(Range(start, 1))
  {
    OneIsOne();
    SplitOne(text, ',');
    hide Split;
    hide Value;
  }

  lemma RangeHasNoSpace(text: string, start: nat, count: nat)
    requires IsRange(text, start, count)
    ensures ' ' !in text
  {
    if k :| 0 <= k < |text| && text[k] == ',' && IsNumeral(text[..k], start) && IsNumeral(text[k + 1..], count) {
      forall i | 0 <= i < |text| ensures text[i] != ' ' {
        assert i < k ==> text[i] == text[..k][i];
        assert i > k ==> text[i] == text[k + 1..][i - k - 1];
      }
    }
  }

  /** A row shows a hunk: two ranges between the signs, and any heading behind them. */
  ghost predicate ShowsHunk(row: string, before: string, after: string, tail: string, h: HunkHeader) {
    row == "@@ -" + before + " +" + after + " @@" + tail &&
    (exists start :: IsRange(before, start, h.oldCount)) && IsRange(after, h.newStart, h.newCount)
  }

  /** A row is read as a hunk header exactly when it shows one, and then as that one. */
  lemma HunkIsReadExactlyWhen(row: string, h: HunkHeader)
    ensures ReadHunk(row) == Some(h) <==> exists before, after, tail :: ShowsHunk(row, before, after, tail, h)
  {
    if ReadHunk(row) == Some(h) {
      HunkShows(row, h);
    }
    if before, after, tail :| ShowsHunk(row, before, after, tail, h) {
      var start :| IsRange(before, start, h.oldCount);
      RangeIsReadExactlyWhen(before, start, h.oldCount);
      RangeIsReadExactlyWhen(after, h.newStart, h.newCount);
      RangeHasNoSpace(before, start, h.oldCount);
      RangeHasNoSpace(after, h.newStart, h.newCount);
      HeaderIsRead(before, after, tail, Range(start, h.oldCount), Range(h.newStart, h.newCount));
    }
  }

  lemma {:induction false} IndexIsThere(s: string, sought: string, from: nat)
    ensures IndexOf(s, sought, from).Some? ==>
              from <= IndexOf(s, sought, from).value <= |s| && sought <= s[IndexOf(s, sought, from).value..]
    decreases |s| - from
  {
    if from < |s| && !(sought <= s[from..]) {
      IndexIsThere(s, sought, from + 1);
    }
  }

  lemma HunkIsFound(row: string, h: HunkHeader) returns (close: nat, start: nat)
    requires ReadHunk(row) == Some(h)
    ensures 4 <= close && close + 3 <= |row| && row[..4] == "@@ -" && row[close..close + 3] == " @@"
    ensures var parts := Split(row[4..close], ' ');
            |parts| == 2 && parts[1] != "" && parts[1] == "+" + parts[1][1..] &&
            ReadRange(parts[0]) == Some(Range(start, h.oldCount)) && ReadRange(parts[1][1..]) == Some(Range(h.newStart, h.newCount))
  {
    hide ReadRange;
    hide Split;
    IndexIsThere(row, " @@", 4);
    close := IndexOf(row, " @@", 4).value;
    start := ReadRange(Split(row[4..close], ' ')[0]).value.start;
    assert row[close..][..3] == " @@";
  }

  lemma HunkShows(row: string, h: HunkHeader)
    requires ReadHunk(row) == Some(h)
    ensures exists before, after, tail :: ShowsHunk(row, before, after, tail, h)
  {
    hide *;
    var close, start := HunkIsFound(row, h);
    var parts := Split(row[4..close], ' ');
    SplitInTwo(row[4..close], ' ');
    HunkIsJoined(row, close, parts[0], parts[1][1..]);
    RangeIsReadExactlyWhen(parts[0], start, h.oldCount);
    RangeIsReadExactlyWhen(parts[1][1..], h.newStart, h.newCount);
    ShownHunk(row, parts[0], start, parts[1][1..], row[close + 3..], h);
  }

  lemma ShownHunk(row: string, before: string, start: nat, after: string, tail: string, h: HunkHeader)
    requires row == "@@ -" + before + " +" + after + " @@" + tail
    requires IsRange(before, start, h.oldCount) && IsRange(after, h.newStart, h.newCount)
    ensures ShowsHunk(row, before, after, tail, h)
  {
  }

  lemma HunkIsJoined(row: string, close: nat, before: string, after: string)
    requires 4 <= close && close + 3 <= |row| && row[..4] == "@@ -" && row[close..close + 3] == " @@"
    requires row[4..close] == before + [' '] + ("+" + after)
    ensures row == "@@ -" + before + " +" + after + " @@" + row[close + 3..]
  {
    assert row == row[..4] + row[4..close] + row[close..close + 3] + row[close + 3..];
    assert before + [' '] + ("+" + after) == before + " +" + after;
  }

  // ---- Paths ----

  /** A name between separators. */
  predicate IsName(s: string) {
    s != "" && '/' !in s && '\\' !in s && '\t' !in s
  }

  /** One separator or more: slashes and backslashes in any mix. */
  predicate IsSeparator(s: string) {
    s != "" && forall k :: 0 <= k < |s| ==> s[k] == '/' || s[k] == '\\'
  }

  predicate IsSpelling(names: seq<string>, separators: seq<string>) {
    |names| > 0 && |separators| == |names| - 1 &&
    (forall k :: 0 <= k < |names| ==> IsName(names[k])) && forall k :: 0 <= k < |separators| ==> IsSeparator(separators[k])
  }

  /** A path as it may be spelled. */
  function Spelled(names: seq<string>, separators: seq<string>): string
    requires IsSpelling(names, separators)
  {
    if |names| == 1 then names[0] else names[0] + separators[0] + Spelled(names[1..], separators[1..])
  }

  /** The same names with one slash between them. */
  function Joined(names: seq<string>): string
    requires names != []
  {
    if |names| == 1 then names[0] else names[0] + "/" + Joined(names[1..])
  }

  /** Leading dots name nothing. */
  function WithoutHere(names: seq<string>): (rest: seq<string>)
    requires names != []
    ensures rest != []
  {
    if names[0] == "." && |names| > 1 then WithoutHere(names[1..]) else names
  }

  /** The names that count: what leading dots and then one git prefix leave. */
  function Counted(names: seq<string>): (rest: seq<string>)
    requires names != []
    ensures rest != []
  {
    var rest := WithoutHere(names);
    if (rest[0] == "a" || rest[0] == "b") && |rest| > 1 then rest[1..] else rest
  }

  lemma SlashedAppends(a: string, b: string)
    ensures Slashed(a + b) == Slashed(a) + Slashed(b)
  {
  }

  lemma SlashedName(s: string)
    requires IsName(s)
    ensures Slashed(s) == s
  {
  }

  lemma CharacterCollapses(c: char, rest: string)
    requires c != '/'
    ensures Collapsed([c] + rest) == [c] + Collapsed(rest)
  {
    assert ([c] + rest)[1..] == rest;
  }

  lemma {:induction false} NameCollapses(name: string, rest: string)
    requires '/' !in name
    ensures Collapsed(name + rest) == name + Collapsed(rest)
  {
    hide *;
    if name == "" {
      assert name + rest == rest;
      assert name + Collapsed(rest) == Collapsed(rest);
    } else {
      var c, tail := name[0], name[1..];
      assert name == [c] + tail;
      NameCollapses(tail, rest);
      CharacterCollapses(c, tail + rest);
      assert name + rest == [c] + (tail + rest);
      assert name + Collapsed(rest) == [c] + (tail + Collapsed(rest));
    }
  }

  lemma {:induction false} RunCollapses(run: string, rest: string)
    requires run != "" && (forall k :: 0 <= k < |run| ==> run[k] == '/') && rest != "" && rest[0] != '/'
    ensures Collapsed(run + rest) == "/" + Collapsed(rest)
  {
    if |run| == 1 {
      assert run == "/" && (run + rest)[1..] == rest;
    } else {
      RunCollapses(run[1..], rest);
      assert (run + rest)[1..] == run[1..] + rest;
    }
  }

  lemma HeadCollapses(c: char, rest: string)
    requires rest != ""
    ensures Collapsed([c] + rest) == if c == '/' && rest[0] == '/' then Collapsed(rest) else [c] + Collapsed(rest)
  {
    assert ([c] + rest)[1..] == rest;
  }

  /** Wherever two slashes stand together one of them goes; a text without such a place is kept, so
      this says what any text is read as. */
  lemma {:induction false} SlashesCollapse(before: string, after: string)
    ensures Collapsed(before + "//" + after) == Collapsed(before + "/" + after)
    ensures (forall k :: 0 <= k < |after| - 1 ==> !(after[k] == '/' && after[k + 1] == '/')) ==> Collapsed(after) == after
  {
    hide *;
    if forall k :: 0 <= k < |after| - 1 ==> !(after[k] == '/' && after[k + 1] == '/') {
      NothingCollapses(after);
    }
    if before == "" {
      HeadCollapses('/', "/" + after);
      assert before + "//" + after == ['/'] + ("/" + after) && before + "/" + after == "/" + after;
    } else {
      var c, tail := before[0], before[1..];
      assert before == [c] + tail;
      SlashesCollapse(tail, after);
      HeadCollapses(c, tail + "//" + after);
      HeadCollapses(c, tail + "/" + after);
      assert before + "//" + after == [c] + (tail + "//" + after) && before + "/" + after == [c] + (tail + "/" + after);
    }
  }

  lemma {:induction false} JoinedStartsWithName(names: seq<string>)
    requires names != [] && IsName(names[0]) && forall k :: 0 <= k < |names| ==> IsName(names[k])
    ensures Joined(names) != "" && names[0] != "" && Joined(names)[0] == names[0][0] && Joined(names)[0] != '/'
    ensures forall k :: 0 <= k < |names[0]| ==> k < |Joined(names)| && Joined(names)[k] == names[0][k]
    ensures |names| > 1 ==> |names[0]| < |Joined(names)| && Joined(names)[|names[0]|] == '/'
    ensures |names| == 1 ==> Joined(names) == names[0]
  {
  }

  lemma {:induction false} SpelledStartsWithName(names: seq<string>, separators: seq<string>)
    requires IsSpelling(names, separators)
    ensures Spelled(names, separators) != "" && Spelled(names, separators)[0] == names[0][0]
  {
  }

  lemma {:induction false} SpellingCollapses(names: seq<string>, separators: seq<string>)
    requires IsSpelling(names, separators)
    ensures Collapsed(Slashed(Spelled(names, separators))) == Joined(names)
  {
    SlashedName(names[0]);
    if |names| == 1 {
      NameCollapses(names[0], "");
      assert names[0] + "" == names[0];
    } else {
      var rest := Spelled(names[1..], separators[1..]);
      SpellingCollapses(names[1..], separators[1..]);
      SpelledStartsWithName(names[1..], separators[1..]);
      SlashedAppends(names[0] + separators[0], rest);
      SlashedAppends(names[0], separators[0]);
      assert names[0] + Slashed(separators[0]) + Slashed(rest) == names[0] + (Slashed(separators[0]) + Slashed(rest));
      NameCollapses(names[0], Slashed(separators[0]) + Slashed(rest));
      assert IsName(names[1..][0]);
      RunCollapses(Slashed(separators[0]), Slashed(rest));
    }
  }

  /** Only a name of its own is a prefix. */
  lemma PrefixIsName(names: seq<string>, c: char)
    requires names != [] && (forall k :: 0 <= k < |names| ==> IsName(names[k])) && c != '/'
    ensures StartsWith(Joined(names), [c, '/']) <==> names[0] == [c] && |names| > 1
    ensures |names| > 1 && |names[0]| == 1 ==> Joined(names)[2..] == Joined(names[1..])
  {
    JoinedStartsWithName(names);
    var s := Joined(names);
    if StartsWith(s, [c, '/']) {
      assert [c, '/'][0] == s[0] && [c, '/'][1] == s[1];
    }
    if |names| > 1 && |names[0]| == 1 {
      assert s == names[0] + "/" + Joined(names[1..]);
    }
  }

  lemma {:induction false} DotsGo(names: seq<string>)
    requires names != [] && forall k :: 0 <= k < |names| ==> IsName(names[k])
    ensures WithoutDots(Joined(names)) == Joined(WithoutHere(names))
    ensures forall k :: 0 <= k < |WithoutHere(names)| ==> IsName(WithoutHere(names)[k])
    decreases |names|
  {
    PrefixIsName(names, '.');
    if names[0] == "." && |names| > 1 {
      DotsGo(names[1..]);
    }
  }

  /** However a path is spelled, with whatever separators between its names and in whatever number,
      leading dots and a git prefix, it is read as the names that count, one slash between them. */
  lemma SpellingIsRead(names: seq<string>, separators: seq<string>)
    requires IsSpelling(names, separators) && IsTrimmed(Spelled(names, separators))
    ensures NormalisedPath(Spelled(names, separators)) == Joined(Counted(names))
  {
    var path := Spelled(names, separators);
    assert Trim(path) == path;
    SpellingCollapses(names, separators);
    DotsGo(names);
    PrefixIsName(WithoutHere(names), 'a');
    PrefixIsName(WithoutHere(names), 'b');
  }

  predicate IsTrimmed(s: string) {
    s != "" && !IsSpace(s[0]) && !IsSpace(s[|s| - 1])
  }

  predicate IsBlank(s: string) {
    forall k :: 0 <= k < |s| ==> IsSpace(s[k]) && s[k] != '\t'
  }

  lemma {:induction false} BlanksGo(before: string, s: string, after: string)
    requires IsBlank(before) && IsTrimmed(s) && IsBlank(after)
    ensures Trim(before + s + after) == s
    decreases |before| + |after|
  {
    var whole := before + s + after;
    if before != "" {
      BlanksGo(before[1..], s, after);
      assert whole[1..] == before[1..] + s + after;
    } else if after != "" {
      BlanksGo(before, s, after[..|after| - 1]);
      assert whole[..|whole| - 1] == before + s + after[..|after| - 1];
      assert whole[0] == s[0];
    } else {
      assert whole == s;
    }
  }

  /** What a header shows of a path: blanks around it, perhaps quotes, perhaps a tab and more. */
  ghost predicate ShowsPath(rest: string, shown: string) {
    exists before, after, more :: ShowsBetween(rest, before, shown, after, more)
  }

  predicate ShowsBetween(rest: string, before: string, shown: string, after: string, more: string) {
    IsBlank(before) && IsBlank(after) && (rest == before + shown + after || rest == before + shown + after + ['\t'] + more)
  }

  lemma ShownIsTrimmed(rest: string, shown: string)
    requires ShowsPath(rest, shown) && IsTrimmed(shown) && '\t' !in shown
    ensures Trim(Split(rest, '\t')[0]) == shown
  {
    var before, after, more :| ShowsBetween(rest, before, shown, after, more);
    BlanksGo(before, shown, after);
    var whole := before + shown + after;
    assert '\t' !in whole;
    SplitOne(whole, '\t');
    SplitAt(whole, '\t', more);
  }

  predicate IsQuoted(s: string) {
    |s| >= 2 && s[0] == '"' && s[|s| - 1] == '"'
  }

  /** The header of a path, quoted or not, names it. */
  lemma HeaderNamesPath(rest: string, names: seq<string>, separators: seq<string>, quoted: bool)
    requires IsSpelling(names, separators) && IsTrimmed(Spelled(names, separators)) && '\t' !in Spelled(names, separators)
    requires quoted || !IsQuoted(Spelled(names, separators))
    requires ShowsPath(rest, if quoted then "\"" + Spelled(names, separators) + "\"" else Spelled(names, separators))
    ensures HeaderPath(rest) == Some(Joined(Counted(names)))
  {
    var path := Spelled(names, separators);
    var shown := if quoted then "\"" + path + "\"" else path;
    ShownIsTrimmed(rest, shown);
    SpellingIsRead(names, separators);
    SpelledStartsWithName(names, separators);
    assert quoted ==> shown[1..|shown| - 1] == path;
    assert path != "/dev/null" by {
      assert IsName(names[0]) && path[0] == names[0][0] && "/dev/null"[0] == '/';
    }
  }

  /** And the null device, quoted or not, names none. */
  lemma NullDeviceNamesNone(rest: string)
    requires ShowsPath(rest, "/dev/null") || ShowsPath(rest, "\"/dev/null\"")
    ensures HeaderPath(rest) == None
  {
    if ShowsPath(rest, "/dev/null") {
      NamesNone(rest, "/dev/null");
    } else {
      assert "\"" + "/dev/null" + "\"" == "\"/dev/null\"";
      NamesNone(rest, "\"" + "/dev/null" + "\"");
    }
  }

  lemma NamesNone(rest: string, shown: string)
    requires ShowsPath(rest, shown) && (shown == "/dev/null" || shown == "\"" + "/dev/null" + "\"")
    ensures HeaderPath(rest) == None
  {
    hide ShowsPath;
    hide Split;
    hide Trim;
    hide NormalisedPath;
    ShownIsTrimmed(rest, shown);
    assert shown != "/dev/null" ==> shown[1..|shown| - 1] == "/dev/null";
  }

  /** Quotes around a path go, whatever stands between them, before it is read. */
  lemma QuotesGo(rest: string, inside: string)
    requires ShowsPath(rest, "\"" + inside + "\"") && '\t' !in inside
    ensures HeaderPath(rest) == if inside == "/dev/null" then None else Some(NormalisedPath(inside))
  {
    hide ShowsPath;
    hide Split;
    hide Trim;
    hide NormalisedPath;
    var shown := "\"" + inside + "\"";
    ShownIsTrimmed(rest, shown);
    assert shown[1..|shown| - 1] == inside;
  }
}
