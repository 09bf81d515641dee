/** ECMAScript patterns (section 22.2 of ECMA-262) with the `u` flag: the part of the Pattern
    grammar without counted quantifiers, look-around, back references, ranges and class escapes. */
module Regex {
  import opened Wrappers

  datatype Regex =
    | Empty
    | Char(c: char)
    | Any
    | Class(negated: bool, members: string)
    | Seq(first: Regex, rest: Regex)
    | Alt(left: Regex, right: Regex)
    | Star(body: Regex)
    | Opt(body: Regex)
    | Start
    | End

  // ---- The grammar ----

  predicate IsSyntaxCharacter(c: char) {
    c in "^$\\.*+?()[]{}|"
  }

  predicate StartsWith(s: string, c: char) {
    s != "" && s[0] == c
  }

  /** Each parser reads what its production can from the front, and returns what is left; None is
      a syntax error, or a construct outside this part of the grammar. */
  type Parsed = Option<(Regex, string)>

  function ParseDisjunction(s: string): (r: Parsed)
    ensures r.Some? ==> |r.value.1| <= |s|
    decreases |s|, 3
  {
    var first := ParseAlternative(s);
    if first.None? then None
    else
      var (left, left_) := first.value;
      if !StartsWith(left_, '|') then Some((left, left_))
      else
        var second := ParseDisjunction(left_[1..]);
        if second.None? then None else Some((Alt(left, second.value.0), second.value.1))
  }

  function ParseAlternative(s: string): (r: Parsed)
    ensures r.Some? ==> |r.value.1| <= |s|
    decreases |s|, 2
  {
    if s == "" || s[0] == '|' || s[0] == ')' then Some((Empty, s))
    else
      var term := ParseTerm(s);
      if term.None? then None
      else
        var more := ParseAlternative(term.value.1);
        if more.None? then None else Some((Seq(term.value.0, more.value.0), more.value.1))
  }

  function ParseTerm(s: string): (r: Parsed)
    requires s != ""
    ensures r.Some? ==> |r.value.1| < |s|
    decreases |s|, 1
  {
    if s[0] == '^' then Some((Start, s[1..]))
    else if s[0] == '$' then Some((End, s[1..]))
    else
      var atom := ParseAtom(s);
      if atom.None? then None else ParseQuantifier(atom.value.0, atom.value.1)
  }

  function ParseQuantifier(atom: Regex, s: string): (r: Parsed)
    ensures r.Some? ==> |r.value.1| <= |s|
  {
    if StartsWith(s, '*') then Some((Star(atom), Lazy(s[1..])))
    else if StartsWith(s, '+') then Some((Seq(atom, Star(atom)), Lazy(s[1..])))
    else if StartsWith(s, '?') then Some((Opt(atom), Lazy(s[1..])))
    else if StartsWith(s, '{') then None
    else Some((atom, s))
  }

  /** A lazy mark changes which match is found first, not whether there is one. */
  function Lazy(s: string): (rest: string)
    ensures |rest| <= |s|
  {
    if StartsWith(s, '?') then s[1..] else s
  }

  function ParseAtom(s: string): (r: Parsed)
    requires s != ""
    ensures r.Some? ==> |r.value.1| < |s|
    decreases |s|, 0
  {
    if s[0] == '.' then Some((Any, s[1..]))
    else if s[0] == '\\' then
      if |s| > 1 && (IsSyntaxCharacter(s[1]) || s[1] == '/') then Some((Char(s[1]), s[2..])) else None
    else if s[0] == '[' then
      if StartsWith(s[1..], '^') then ParseClass(true, "", s[2..]) else ParseClass(false, "", s[1..])
    else if s[0] == '(' then
      if StartsWith(s[1..], '?') then
        if StartsWith(s[2..], ':') then Close(ParseDisjunction(s[3..])) else None
      else Close(ParseDisjunction(s[1..]))
    else if IsSyntaxCharacter(s[0]) then None
    else Some((Char(s[0]), s[1..]))
  }

  function Close(group: Parsed): (r: Parsed)
    ensures r.Some? ==> group.Some? && |r.value.1| < |group.value.1|
  {
    if group.Some? && StartsWith(group.value.1, ')') then Some((group.value.0, group.value.1[1..])) else None
  }

  function ParseClass(negated: bool, members: string, s: string): (r: Parsed)
    ensures r.Some? ==> |r.value.1| < |s|
    decreases |s|
  {
    if s == "" || s[0] == '\\' || s[0] == '-' then None
    else if s[0] == ']' then Some((Class(negated, members), s[1..]))
    else ParseClass(negated, members + [s[0]], s[1..])
  }

  function Parse(pattern: string): Option<Regex> {
    var r := ParseDisjunction(pattern);
    if r.Some? && r.value.1 == "" then Some(r.value.0) else None
  }

  // ---- What a pattern matches ----

  predicate IsLineTerminator(c: char) {
    c == '\n' || c == '\r' || c == '\U{2028}' || c == '\U{2029}'
  }

  /** `r` can match `s` from position `i` to position `j`. */
  ghost predicate Matches(r: Regex, s: string, i: nat, j: nat)
    requires i <= j <= |s|
    decreases r, j - i
  {
    match r
    case Empty => i == j
    case Char(c) => j == i + 1 && s[i] == c
    case Any => j == i + 1 && !IsLineTerminator(s[i])
    case Class(negated, members) => j == i + 1 && (s[i] in members) != negated
    case Seq(first, rest) => exists k: nat :: i <= k <= j && Matches(first, s, i, k) && Matches(rest, s, k, j)
    case Alt(left, right) => Matches(left, s, i, j) || Matches(right, s, i, j)
    case Star(body) => i == j || exists k: nat :: i < k <= j && Matches(body, s, i, k) && Matches(r, s, k, j)
    case Opt(body) => i == j || Matches(body, s, i, j)
    case Start => i == j == 0
    case End => i == j == |s|
  }

  lemma SeqSplits(r: Regex, s: string, i: nat, j: nat) returns (k: nat)
    requires i <= j <= |s| && r.Seq? && Matches(r, s, i, j)
    ensures i <= k <= j && Matches(r.first, s, i, k) && Matches(r.rest, s, k, j)
  {
    k :| i <= k <= j && Matches(r.first, s, i, k) && Matches(r.rest, s, k, j);
  }

  lemma SeqJoins(first: Regex, rest: Regex, s: string, i: nat, k: nat, j: nat)
    requires i <= k <= j <= |s| && Matches(first, s, i, k) && Matches(rest, s, k, j)
    ensures Matches(Seq(first, rest), s, i, j)
  {
  }

  /** What `RegExp.prototype.test` answers: the pattern matches somewhere in the text. */
  ghost predicate Test(r: Regex, s: string) {
    exists i: nat, j: nat :: i <= j <= |s| && Matches(r, s, i, j)
  }

  /** A pattern of one character, and the characters it takes. */
  predicate Takes(r: Regex, c: char)
    requires r.Any? || r.Class?
  {
    if r.Any? then !IsLineTerminator(c) else (c in r.members) != r.negated
  }

  lemma {:induction false} StarOfOne(r: Regex, s: string, i: nat, j: nat)
    requires i <= j <= |s| && (r.Any? || r.Class?)
    ensures Matches(Star(r), s, i, j) <==> forall k :: i <= k < j ==> Takes(r, s[k])
    decreases j - i
  {
    if i < j {
      var star := Star(r);
      StarOfOne(r, s, i + 1, j);
      assert Matches(r, s, i, i + 1) <==> Takes(r, s[i]);
      assert forall k: nat :: i < k <= j && Matches(r, s, i, k) ==> k == i + 1;
      assert Matches(star, s, i, j) <==> exists k: nat :: i < k <= j && Matches(r, s, i, k) && Matches(star, s, k, j);
    }
  }
}
