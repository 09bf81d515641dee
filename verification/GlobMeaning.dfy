/** Compiling a glob preserves its meaning: read by the pattern grammar, the emitted pattern
    matches exactly the names the glob does. */
module GlobMeaning {
  import opened Wrappers
  import opened Regex
  import opened Glob
  import Text

  // ---- How the emitted pattern is read ----

  function Node(t: Token): Regex {
    match t
    case Literal(c) => Char(c)
    case One => Class(true, "/")
    case Segment => Star(Class(true, "/"))
    case Deep => Star(Any)
    case DeepSlash => Opt(Seq(Star(Any), Seq(Char('/'), Empty)))
  }

  function Tree(ts: seq<Token>): Regex {
    if ts == [] then Seq(End, Empty) else Seq(Node(ts[0]), Tree(ts[1..]))
  }

  /** No literal star or question mark: those are never literals of a glob. */
  predicate Plain(ts: seq<Token>) {
    forall k :: 0 <= k < |ts| ==> ts[k] != Literal('*') && ts[k] != Literal('?')
  }

  lemma {:induction false} TokensArePlain(s: string)
    ensures Plain(Tokens(s))
    decreases |s|
  {
    if s != "" {
      TokensArePlain(s[Front(s).1..]);
    }
  }

  /** What may stand behind an atom without being taken for its quantifier. */
  predicate Quiet(s: string) {
    s != "" && s[0] !in "*+?{"
  }

  lemma {:induction false} EmittedIsQuiet(ts: seq<Token>)
    requires Plain(ts)
    ensures Quiet(EmitAll(ts) + "$")
    ensures ts != [] ==> (EmitAll(ts) + "$")[0] != '|' && (EmitAll(ts) + "$")[0] != ')'
  {
  }

  lemma SegmentIsRead(rest: string)
    requires Quiet(rest)
    ensures ParseTerm("[^/]" + rest) == Some((Class(true, "/"), rest))
    ensures ParseTerm("[^/]*" + rest) == Some((Star(Class(true, "/")), rest))
  {
    var class_ := Class(true, "/");
    ClassIsRead(rest);
    assert ParseTerm("[^/]" + rest) == ParseQuantifier(class_, rest);
    var starred := "*" + rest;
    ClassIsRead(starred);
    assert "[^/]" + starred == "[^/]*" + rest;
    assert starred[1..] == rest;
    assert ParseTerm("[^/]" + starred) == ParseQuantifier(class_, starred);
  }

  lemma ClassIsRead(rest: string)
    ensures ParseAtom("[^/]" + rest) == Some((Class(true, "/"), rest))
  {
    var s := "[^/]" + rest;
    assert s[1..] == "^/]" + rest && s[2..] == "/]" + rest;
    assert s[2..][1..] == "]" + rest && s[2..][1..][1..] == rest;
    assert StartsWith(s[1..], '^') && ParseAtom(s) == ParseClass(true, "", s[2..]);
    assert ParseClass(true, "", s[2..]) == ParseClass(true, "" + "/", s[2..][1..]);
    assert "" + "/" == "/";
    assert ParseClass(true, "/", s[2..][1..]) == Some((Class(true, "/"), rest));
  }

  lemma DeepIsRead(rest: string)
    requires Quiet(rest)
    ensures ParseTerm(".*" + rest) == Some((Star(Any), rest))
  {
  }

  lemma GroupIsRead(closing: string)
    requires StartsWith(closing, ')')
    ensures ParseDisjunction(".*/" + closing) == Some((Seq(Star(Any), Seq(Char('/'), Empty)), closing))
  {
    var slash := "/" + closing;
    DeepIsRead(slash);
    assert slash[1..] == closing && ParseTerm(slash) == Some((Char('/'), closing));
    assert ParseAlternative(slash) == Some((Seq(Char('/'), Empty), closing));
    assert ".*" + slash == ".*/" + closing;
    assert ParseAlternative(".*/" + closing) == Some((Seq(Star(Any), Seq(Char('/'), Empty)), closing));
  }

  lemma DeepSlashIsRead(rest: string)
    requires Quiet(rest)
    ensures ParseTerm("(?:.*/)?" + rest) == Some((Opt(Seq(Star(Any), Seq(Char('/'), Empty))), rest))
  {
    var s, closing := "(?:.*/)?" + rest, ")?" + rest;
    GroupIsRead(closing);
    assert s[1..] == "?:.*/)?" + rest && s[2..] == ":.*/)?" + rest && s[3..] == ".*/" + closing;
    assert closing[1..] == "?" + rest && ("?" + rest)[1..] == rest;
    assert ParseAtom(s) == Close(ParseDisjunction(s[3..]));
  }

  lemma LiteralIsRead(c: char, rest: string)
    requires Quiet(rest) && c != '*' && c != '?'
    ensures ParseTerm(Escaped(c) + rest) == Some((Char(c), rest))
  {
  }

  lemma TokenIsRead(t: Token, rest: string)
    requires Quiet(rest) && t != Literal('*') && t != Literal('?')
    ensures ParseTerm(Emit(t) + rest) == Some((Node(t), rest))
  {
    match t
    case Literal(c) => LiteralIsRead(c, rest);
    case One => SegmentIsRead(rest);
    case Segment => SegmentIsRead(rest);
    case Deep => DeepIsRead(rest);
    case DeepSlash => DeepSlashIsRead(rest);
  }

  lemma {:induction false} TokensAreRead(ts: seq<Token>)
    requires Plain(ts)
    ensures ParseAlternative(EmitAll(ts) + "$") == Some((Tree(ts), ""))
  {
    if ts == [] {
      assert EmitAll(ts) + "$" == "$" && "$"[1..] == "";
      assert ParseAlternative("") == Some((Empty, ""));
    } else {
      var rest := EmitAll(ts[1..]) + "$";
      TokensAreRead(ts[1..]);
      EmittedIsQuiet(ts[1..]);
      EmittedIsQuiet(ts);
      TokenIsRead(ts[0], rest);
      assert EmitAll(ts) + "$" == Emit(ts[0]) + rest;
    }
  }

  lemma CompiledIsRead(glob: string)
    ensures Parse(Compiled(glob)) == Some(Seq(Start, Tree(Tokens(Text.Slashed(glob)))))
  {
    var ts := Tokens(Text.Slashed(glob));
    TokensArePlain(Text.Slashed(glob));
    TokensAreRead(ts);
    var s := Compiled(glob);
    assert s[1..] == EmitAll(ts) + "$";
    assert ParseTerm(s) == Some((Start, s[1..]));
    assert ParseAlternative(s) == Some((Seq(Start, Tree(ts)), ""));
  }

  // ---- What it then matches ----

  predicate OnOneLine(s: string) {
    forall k :: 0 <= k < |s| ==> !IsLineTerminator(s[k])
  }

  /** `**` does not reach across a line terminator. */
  predicate AdmitsOnLine(t: Token, piece: string) {
    Admits(t, piece) && (t.Deep? || t.DeepSlash? ==> OnOneLine(piece))
  }

  predicate FitsOnLines(ts: seq<Token>, pieces: seq<string>) {
    |pieces| == |ts| && forall k :: 0 <= k < |ts| ==> AdmitsOnLine(ts[k], pieces[k])
  }

  ghost predicate Splits(ts: seq<Token>, s: string) {
    exists pieces: seq<string> :: FitsOnLines(ts, pieces) && Joined(pieces) == s
  }

  lemma NodeMatches(t: Token, s: string, i: nat, j: nat)
    requires i <= j <= |s|
    ensures Matches(Node(t), s, i, j) <==> AdmitsOnLine(t, s[i..j])
  {
    match t
    case Literal(c) =>
    case One =>
    case Segment => StarOfOne(Class(true, "/"), s, i, j);
    case Deep => StarOfOne(Any, s, i, j);
    case DeepSlash =>
      if i < j { DirectoryMatches(s, i, j); }
  }

  lemma DirectoryMatches(s: string, i: nat, j: nat)
    requires i < j <= |s|
    ensures Matches(Seq(Star(Any), Seq(Char('/'), Empty)), s, i, j) <==> s[j - 1] == '/' && OnOneLine(s[i..j])
  {
    var slash := Seq(Char('/'), Empty);
    forall k: nat | i <= k <= j
      ensures Matches(slash, s, k, j) <==> k == j - 1 && s[k] == '/'
    {
      if k < j {
        assert Matches(Char('/'), s, k, k + 1) <==> s[k] == '/';
      }
    }
    StarOfOne(Any, s, i, j - 1);
    assert Matches(Seq(Star(Any), slash), s, i, j) <==>
           exists k: nat :: i <= k <= j && Matches(Star(Any), s, i, k) && Matches(slash, s, k, j);
    assert OnOneLine(s[i..j]) <==> forall k :: i <= k < j ==> !IsLineTerminator(s[k]) by {
      assert forall k :: i <= k < j ==> s[i..j][k - i] == s[k];
    }
  }

  lemma {:induction false} TreeEndsAtTheEnd(ts: seq<Token>, s: string, i: nat, j: nat)
    requires i <= j <= |s| && Matches(Tree(ts), s, i, j)
    ensures j == |s|
    decreases |ts|
  {
    if ts != [] {
      var k := SeqSplits(Tree(ts), s, i, j);
      TreeEndsAtTheEnd(ts[1..], s, k, j);
    }
  }

  lemma EmptyTreeMatches(s: string, i: nat)
    requires i <= |s|
    ensures Matches(Seq(End, Empty), s, i, |s|) <==> Splits([], s[i..])
  {
    assert Joined([]) == "" && FitsOnLines([], []);
    if Matches(Seq(End, Empty), s, i, |s|) {
      var k := SeqSplits(Seq(End, Empty), s, i, |s|);
    }
    if i == |s| {
      SeqJoins(End, Empty, s, i, i, |s|);
      assert s[i..] == Joined([]);
    }
  }

  lemma {:induction false} TreeMatches(ts: seq<Token>, s: string, i: nat)
    requires i <= |s|
    ensures Matches(Tree(ts), s, i, |s|) <==> Splits(ts, s[i..])
    decreases |ts|
  {
    if ts == [] {
      EmptyTreeMatches(s, i);
    } else {
      if Matches(Tree(ts), s, i, |s|) {
        var k := SeqSplits(Tree(ts), s, i, |s|);
        TreeSplits(ts, s, i, k);
      }
      if Splits(ts, s[i..]) {
        var pieces: seq<string> :| FitsOnLines(ts, pieces) && Joined(pieces) == s[i..];
        SplitIsMatched(ts, s, i, pieces);
      }
    }
  }

  lemma TreeSplits(ts: seq<Token>, s: string, i: nat, k: nat)
    requires ts != [] && i <= k <= |s| && Matches(Node(ts[0]), s, i, k) && Matches(Tree(ts[1..]), s, k, |s|)
    ensures Splits(ts, s[i..])
    decreases |ts|, 0
  {
    NodeMatches(ts[0], s, i, k);
    TreeMatches(ts[1..], s, k);
    var rest: seq<string> :| FitsOnLines(ts[1..], rest) && Joined(rest) == s[k..];
    var pieces := [s[i..k]] + rest;
    assert pieces[1..] == rest && s[i..] == s[i..k] + s[k..];
    assert FitsOnLines(ts, pieces) && Joined(pieces) == s[i..];
  }

  lemma SplitIsMatched(ts: seq<Token>, s: string, i: nat, pieces: seq<string>)
    requires ts != [] && i <= |s| && FitsOnLines(ts, pieces) && Joined(pieces) == s[i..]
    ensures Matches(Tree(ts), s, i, |s|)
    decreases |ts|, 0
  {
    var k := i + |pieces[0]|;
    assert s[i..] == pieces[0] + Joined(pieces[1..]);
    assert s[i..k] == pieces[0] && s[k..] == Joined(pieces[1..]);
    NodeMatches(ts[0], s, i, k);
    assert FitsOnLines(ts[1..], pieces[1..]);
    TreeMatches(ts[1..], s, k);
    SeqJoins(Node(ts[0]), Tree(ts[1..]), s, i, k, |s|);
  }

  lemma AnchoredTest(ts: seq<Token>, s: string)
    ensures Test(Seq(Start, Tree(ts)), s) <==> Matches(Tree(ts), s, 0, |s|)
  {
    var r := Seq(Start, Tree(ts));
    if Test(r, s) {
      var i: nat, j: nat :| i <= j <= |s| && Matches(r, s, i, j);
      var k := SeqSplits(r, s, i, j);
      TreeEndsAtTheEnd(ts, s, k, j);
    }
    if Matches(Tree(ts), s, 0, |s|) {
      SeqJoins(Start, Tree(ts), s, 0, 0, |s|);
      assert Matches(r, s, 0, |s|);
    }
  }

  // ---- The results ----

  /** For every glob and every name: the emitted pattern is well formed, and matches the name
      exactly when the name falls into pieces the tokens admit, `**` staying on one line. */
  lemma CompiledMatchesExactly(glob: string, name: string)
    ensures Parse(Compiled(glob)).Some?
    ensures Test(Parse(Compiled(glob)).value, name) <==> Splits(Tokens(Text.Slashed(glob)), name)
  {
    CompiledIsRead(glob);
    var ts := Tokens(Text.Slashed(glob));
    AnchoredTest(ts, name);
    TreeMatches(ts, name, 0);
    assert name[0..] == name;
  }

  lemma {:induction false} PiecesOfOneLine(pieces: seq<string>, k: nat)
    requires k < |pieces| && OnOneLine(Joined(pieces))
    ensures OnOneLine(pieces[k])
  {
    var rest := Joined(pieces[1..]);
    assert Joined(pieces) == pieces[0] + rest;
    if k == 0 {
      assert forall m :: 0 <= m < |pieces[0]| ==> Joined(pieces)[m] == pieces[0][m];
    } else {
      assert forall m :: 0 <= m < |rest| ==> Joined(pieces)[|pieces[0]| + m] == rest[m];
      PiecesOfOneLine(pieces[1..], k - 1);
    }
  }

  /** So for a name without line terminators compilation preserves the glob's meaning. */
  lemma CompilationPreservesMeaning(glob: string, name: string)
    requires OnOneLine(name)
    ensures Parse(Compiled(glob)).Some?
    ensures Test(Parse(Compiled(glob)).value, name) <==> GlobMatches(glob, name)
  {
    CompiledMatchesExactly(glob, name);
    var ts := Tokens(Text.Slashed(glob));
    if pieces: seq<string> :| Fits(ts, pieces) && Joined(pieces) == name {
      forall k | 0 <= k < |pieces|
        ensures AdmitsOnLine(ts[k], pieces[k])
      {
        PiecesOfOneLine(pieces, k);
      }
      assert FitsOnLines(ts, pieces);
    }
    if pieces: seq<string> :| FitsOnLines(ts, pieces) && Joined(pieces) == name {
      assert Fits(ts, pieces);
    }
  }

  /** The compiled pattern answers of this name what the glob means. */
  ghost predicate AgreesOn(glob: string, name: string) {
    Parse(Compiled(glob)).Some? && (Test(Parse(Compiled(glob)).value, name) <==> GlobMatches(glob, name))
  }

  /** Compilation preserves the meaning of every glob on a name exactly when the name has no line
      terminator. */
  lemma MeaningIsPreservedExactlyWhen(name: string)
    ensures OnOneLine(name) <==> forall glob :: AgreesOn(glob, name)
  {
    if OnOneLine(name) {
      forall glob
        ensures AgreesOn(glob, name)
      {
        CompilationPreservesMeaning(glob, name);
      }
    } else {
      DeepStopsAtLineTerminators(name);
      assert !AgreesOn("**", name);
    }
  }

  /** The glob that fails is `**`: it means any path, and matches no name with a line terminator. */
  lemma DeepStopsAtLineTerminators(name: string)
    requires !OnOneLine(name)
    ensures Parse(Compiled("**")).Some?
    ensures GlobMatches("**", name) && !Test(Parse(Compiled("**")).value, name)
  {
    var glob := "**";
    CompiledMatchesExactly(glob, name);
    assert Text.Slashed(glob) == glob;
    assert Tokens(glob[2..]) == [];
    assert Tokens(glob) == [Deep];
    assert Joined([name][1..]) == "";
    assert Joined([name]) == name && Fits([Deep], [name]);
    DeepAloneNeedsOneLine(name);
  }

  lemma DeepAloneNeedsOneLine(name: string)
    ensures Splits([Deep], name) ==> OnOneLine(name)
  {
    if pieces: seq<string> :| FitsOnLines([Deep], pieces) && Joined(pieces) == name {
      assert pieces == [pieces[0]] && Joined(pieces[1..]) == "" && pieces[0] == name;
      assert AdmitsOnLine([Deep][0], pieces[0]);
    }
  }
}
