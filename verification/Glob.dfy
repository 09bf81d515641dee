/** Globs over repository paths: what they mean, and the pattern they compile to. */
module Glob {
  import opened Wrappers
  import opened Regex
  import Text

  // ---- What a glob means ----

  datatype Token = Literal(c: char) | One | Segment | Deep | DeepSlash

  /** The token at the front of a glob, and how many characters of the glob it is. */
  function Front(s: string): (t: (Token, nat))
    requires s != ""
    ensures 1 <= t.1 <= |s|
  {
    if s[0] == '*' && StartsWith(s[1..], '*') then if StartsWith(s[2..], '/') then (DeepSlash, 3) else (Deep, 2)
    else (Single(s[0]), 1)
  }

  function Single(c: char): Token {
    if c == '*' then Segment else if c == '?' then One else Literal(c)
  }

  function Tokens(s: string): seq<Token> {
    if s == "" then [] else [Front(s).0] + Tokens(s[Front(s).1..])
  }

  /** `**` is any text, `**` before a slash is no directory or some, `*` and `?` stay within one. */
  predicate Admits(t: Token, piece: string) {
    match t
    case Literal(c) => piece == [c]
    case One => |piece| == 1 && piece[0] != '/'
    case Segment => '/' !in piece
    case Deep => true
    case DeepSlash => piece == "" || piece[|piece| - 1] == '/'
  }

  function Joined(pieces: seq<string>): string {
    if pieces == [] then "" else pieces[0] + Joined(pieces[1..])
  }

  predicate Fits(ts: seq<Token>, pieces: seq<string>) {
    |pieces| == |ts| && forall k :: 0 <= k < |ts| ==> Admits(ts[k], pieces[k])
  }

  /** A name matches a glob when it falls into pieces that the glob's tokens admit, one each. */
  ghost predicate GlobMatches(glob: string, name: string) {
    exists pieces: seq<string> :: Fits(Tokens(Text.Slashed(glob)), pieces) && Joined(pieces) == name
  }

  // ---- The compiler ----

  function Escaped(c: char): string {
    if c in ".+^${}()|[]\\" then ['\\', c] else [c]
  }

  /** The pattern text for one token. */
  function Emit(t: Token): string {
    match t
    case Literal(c) => Escaped(c)
    case One => "[^/]"
    case Segment => "[^/]*"
    case Deep => ".*"
    case DeepSlash => "(?:.*/)?"
  }

  function EmitAll(ts: seq<Token>): string {
    if ts == [] then "" else Emit(ts[0]) + EmitAll(ts[1..])
  }

  function Compiled(glob: string): string {
    "^" + EmitAll(Tokens(Text.Slashed(glob))) + "$"
  }

  method DoubleStar(glob: string, index: nat) returns (pattern: string, next: nat)
    requires index + 1 < |glob| && glob[index] == '*' && glob[index + 1] == '*'
    ensures Front(glob[index..]).1 == next + 1 - index && pattern == Emit(Front(glob[index..]).0)
  {
    var second := index + 1;
    if second + 1 < |glob| && glob[second + 1] == '/' {
      return "(?:.*/)?", second + 1;
    }
    return ".*", second;
  }

  method GlobCharacter(character: char) returns (pattern: string)
    ensures pattern == Emit(Single(character))
  {
    if character == '*' {
      return "[^/]*";
    }
    if character == '?' {
      return "[^/]";
    }
    return Escaped(character);
  }

  lemma EmitFront(s: string, index: nat, before: string)
    requires index < |s|
    ensures var (t, n) := Front(s[index..]);
            before + EmitAll(Tokens(s[index..])) == before + Emit(t) + EmitAll(Tokens(s[index + n..]))
  {
  }

  lemma EmitNothing(s: string, before: string)
    ensures before + EmitAll(Tokens(s[|s|..])) == before && s[0..] == s
  {
  }

  lemma FrontIsSingle(s: string, index: nat)
    requires index < |s| && !(s[index] == '*' && index + 1 < |s| && s[index + 1] == '*')
    ensures Front(s[index..]) == (Single(s[index]), 1)
  {
  }

  /** The source of the compiled expression. */
  method GlobToRegExp(glob: string) returns (source: string)
    ensures source == Compiled(glob)
  {
    var normalised := Text.Slashed(glob);
    var pattern := TranslateAll(normalised);
    return "^" + pattern + "$";
  }

  method TranslateAll(normalised: string) returns (pattern: string)
    ensures pattern == EmitAll(Tokens(normalised))
  {
    hide *;
    pattern := "";
    var index := 0;
    EmitNothing(normalised, pattern);
    ghost var goal := EmitAll(Tokens(normalised));
    while index < |normalised|
      invariant index <= |normalised|
      invariant pattern + EmitAll(Tokens(normalised[index..])) == goal
    {
      EmitFront(normalised, index, pattern);
      var character := normalised[index];
      if character == '*' && index + 1 < |normalised| && normalised[index + 1] == '*' {
        var star, next := DoubleStar(normalised, index);
        pattern := pattern + star;
        index := next + 1;
      } else {
        FrontIsSingle(normalised, index);
        var one := GlobCharacter(character);
        pattern := pattern + one;
        index := index + 1;
      }
    }
    EmitNothing(normalised, pattern);
  }
}
