/** Lexing helpers: runs of spaces and letters at either end of a text, case folding, trimming. */
module SqlText {
  import opened Wrappers

  /** ASCII whitespace as Python's `\s` and `strip` see it. */
  predicate IsSpace(c: char) {
    c == ' ' || '\t' <= c <= '\r' || 28 as char <= c <= 31 as char
  }

  predicate IsLetter(c: char) {
    'A' <= c <= 'Z' || 'a' <= c <= 'z'
  }

  predicate Spaces(s: string) {
    forall i :: 0 <= i < |s| ==> IsSpace(s[i])
  }

  predicate NoSpaces(s: string) {
    forall i :: 0 <= i < |s| ==> !IsSpace(s[i])
  }

  predicate Letters(s: string) {
    forall i :: 0 <= i < |s| ==> IsLetter(s[i])
  }

  function UpperChar(c: char): (u: char)
    ensures IsSpace(u) <==> IsSpace(c)
    ensures IsLetter(u) <==> IsLetter(c)
  {
    if 'a' <= c <= 'z' then (c as int - 32) as char else c
  }

  function Upper(s: string): (u: string)
    ensures |u| == |s| && forall i :: 0 <= i < |s| ==> u[i] == UpperChar(s[i])
  {
    seq(|s|, i requires 0 <= i < |s| => UpperChar(s[i]))
  }

  /** The length of the leading run of characters that satisfy a property. */
  function Lead(p: char -> bool, s: string): (k: nat)
    ensures k <= |s| && (forall i :: 0 <= i < k ==> p(s[i])) && (k < |s| ==> !p(s[k]))
  {
    if s == "" || !p(s[0]) then 0 else
      var k := Lead(p, s[1..]);
      assert forall i :: 0 < i <= k ==> s[i] == s[1..][i - 1];
      k + 1
  }

  /** The length of the trailing run. */
  function Trail(p: char -> bool, s: string): (k: nat)
    ensures k <= |s| && (forall i :: |s| - k <= i < |s| ==> p(s[i])) && (k < |s| ==> !p(s[|s| - k - 1]))
  {
    if s == "" || !p(s[|s| - 1]) then 0 else 1 + Trail(p, s[..|s| - 1])
  }

  /** A run ends where the property stops holding. */
  lemma LeadIs(p: char -> bool, run: string, rest: string)
    requires (forall i :: 0 <= i < |run| ==> p(run[i])) && (rest == "" || !p(rest[0]))
    ensures Lead(p, run + rest) == |run|
  {
    var s := run + rest;
    assert forall i :: 0 <= i < |run| ==> s[i] == run[i];
    assert rest != "" ==> s[|run|] == rest[0];
  }

  lemma TrailIs(p: char -> bool, rest: string, run: string)
    requires (forall i :: 0 <= i < |run| ==> p(run[i])) && (rest == "" || !p(rest[|rest| - 1]))
    ensures Trail(p, rest + run) == |run|
  {
    var s := rest + run;
    assert forall i :: |rest| <= i < |s| ==> s[i] == run[i - |rest|];
    assert rest != "" ==> s[|rest| - 1] == rest[|rest| - 1];
  }

  /** `strip`: without the spaces at either end. */
  function Strip(s: string): string {
    var tail := s[Lead(IsSpace, s)..];
    tail[..|tail| - Trail(IsSpace, tail)]
  }

  predicate Trimmed(s: string) {
    s != "" && !IsSpace(s[0]) && !IsSpace(s[|s| - 1])
  }

  lemma StripIs(before: string, s: string, after: string)
    requires Spaces(before) && Spaces(after) && Trimmed(s)
    ensures Strip(before + s + after) == s
  {
    LeadIs(IsSpace, before, s + after);
    assert before + s + after == before + (s + after);
    assert (before + s + after)[|before|..] == s + after;
    TrailIs(IsSpace, s, after);
  }

  predicate EndsOnToken(before: string) {
    before == "" || !IsSpace(before[|before| - 1])
  }

  // ----- Reading from the front

  /** The text after a keyword in any case. */
  function Keyword(s: string, word: string): Option<string> {
    if |s| >= |word| && Upper(s[..|word|]) == word then Some(s[|word|..]) else None
  }

  /** The text after at least one space. */
  function Gap(s: string): Option<string> {
    var k := Lead(IsSpace, s);
    if k > 0 then Some(s[k..]) else None
  }

  function SkipSpaces(s: string): string {
    s[Lead(IsSpace, s)..]
  }

  /** A leading run of letters and the text after it. */
  function Word(s: string): Option<(string, string)> {
    var k := Lead(IsLetter, s);
    if k > 0 then Some((s[..k], s[k..])) else None
  }

  lemma KeywordIs(word: string, keyword: string, rest: string)
    requires Upper(word) == keyword
    ensures Keyword(word + rest, keyword) == Some(rest)
  {
    assert (word + rest)[..|word|] == word && (word + rest)[|word|..] == rest;
  }

  lemma GapIs(w: string, rest: string)
    requires w != "" && Spaces(w) && rest != "" && !IsSpace(rest[0])
    ensures Gap(w + rest) == Some(rest)
  {
    LeadIs(IsSpace, w, rest);
    assert (w + rest)[|w|..] == rest;
  }

  lemma SkipSpacesIs(w: string, rest: string)
    requires Spaces(w) && (rest == "" || !IsSpace(rest[0]))
    ensures SkipSpaces(w + rest) == rest
  {
    LeadIs(IsSpace, w, rest);
    assert (w + rest)[|w|..] == rest;
  }

  lemma WordIs(word: string, rest: string)
    requires word != "" && Letters(word) && (rest == "" || !IsLetter(rest[0]))
    ensures Word(word + rest) == Some((word, rest))
  {
    LeadIs(IsLetter, word, rest);
    assert (word + rest)[..|word|] == word && (word + rest)[|word|..] == rest;
  }

  // ----- Reading from the back

  /** The text before the spaces that end a text, and how many there are. */
  function TrailingGap(s: string): Option<(string, string)> {
    var k := Trail(IsSpace, s);
    if k > 0 then Some((s[..|s| - k], s[|s| - k..])) else None
  }

  predicate NotSpace(c: char) {
    !IsSpace(c)
  }

  /** The last blank-free token and the text before it. */
  function LastToken(s: string): Option<(string, string)> {
    var k := Trail(NotSpace, s);
    if k > 0 then Some((s[..|s| - k], s[|s| - k..])) else None
  }

  /** A text that ends in spaces, then a token: what is before the spaces, the spaces, the token. */
  datatype Ending = Ending(before: string, gap: string, token: string)

  function EndToken(s: string): Option<Ending> {
    match LastToken(s)
    case None => None
    case Some((head, token)) =>
      match TrailingGap(head)
      case None => None
      case Some((before, gap)) => Some(Ending(before, gap, token))
  }

  lemma EndTokenIs(before: string, gap: string, token: string)
    requires gap != "" && Spaces(gap) && token != "" && NoSpaces(token) && EndsOnToken(before)
    ensures EndToken(before + gap + token) == Some(Ending(before, gap, token))
  {
    var head := before + gap;
    assert head[|head| - 1] == gap[|gap| - 1];
    TrailIs(NotSpace, head, token);
    assert (head + token)[..|head|] == head && (head + token)[|head|..] == token;
    TrailIs(IsSpace, before, gap);
    assert head[..|before|] == before && head[|before|..] == gap;
  }

  lemma LastTokenReads(s: string)
    requires LastToken(s).Some?
    ensures var (head, token) := LastToken(s).value; s == head + token && token != "" && NoSpaces(token)
  {
    hide IsSpace;
  }

  lemma TrailingGapReads(s: string)
    requires TrailingGap(s).Some?
    ensures var (before, gap) := TrailingGap(s).value;
            s == before + gap && gap != "" && Spaces(gap) && EndsOnToken(before)
  {
    hide IsSpace;
  }

  lemma EndTokenReads(s: string)
    requires EndToken(s).Some?
    ensures var e := EndToken(s).value;
            && s == e.before + e.gap + e.token
            && e.gap != "" && Spaces(e.gap) && e.token != "" && NoSpaces(e.token) && EndsOnToken(e.before)
  {
    hide LastToken, TrailingGap, Spaces, NoSpaces, EndsOnToken;
    LastTokenReads(s);
    TrailingGapReads(LastToken(s).value.0);
  }
}
